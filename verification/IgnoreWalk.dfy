// The load walk of ignore/ignore.go over a directory tree, and the effect of its pruning.
module IgnoreWalk {
  import opened Prelude
  import opened Strings
  import opened Glob
  import opened IgnoreRules

  // A directory lists its entries in visiting order. readable is false for an ignore-named
  // entry that is not a regular file.
  datatype Node =
    | File(name: string, readable: bool, lines: seq<string>)
    | Dir(name: string, entries: seq<Node>)

  const GIT_DIR := ".git"

  // Directory names usable as pattern prefixes and path segments.
  predicate NameOk(name: string) {
    Literal(name) && Lacks(name, '/') && name != "." && name != ".."
  }

  predicate NamesOk(entries: seq<Node>)
    decreases entries, 1
  {
    forall e :: e in entries ==> NodeOk(e)
  }

  predicate NodeOk(e: Node)
    decreases e, 0
  {
    e.Dir? ==> NameOk(e.name) && NamesOk(e.entries)
  }

  // A path made of such names.
  predicate TreePath(dir: seq<string>) {
    forall i :: 0 <= i < |dir| ==> NameOk(dir[i])
  }

  function FilePatterns(e: Node, dir: seq<string>, honoured: set<string>): seq<Pattern>
    requires e.File?
  {
    if e.name in honoured && e.readable then ParseLines(e.lines, DirText(dir), e.name) else []
  }

  predicate Prunes(pats: seq<Pattern>, name: string, dir: seq<string>) {
    name == GIT_DIR || MatchPath(pats, DirText(dir + [name]), true, "")
  }

  // The patterns gathered by the pruned walk.
  function Walk(entries: seq<Node>, dir: seq<string>, pats: seq<Pattern>, honoured: set<string>): (r: seq<Pattern>)
    ensures |pats| <= |r| && r[..|pats|] == pats
    decreases entries, 1
  {
    if entries == [] then pats
    else Walk(entries[1..], dir, VisitNode(entries[0], dir, pats, honoured), honoured)
  }

  function VisitNode(e: Node, dir: seq<string>, pats: seq<Pattern>, honoured: set<string>): (r: seq<Pattern>)
    ensures |pats| <= |r| && r[..|pats|] == pats
    decreases e, 0
  {
    match e
    case File(_, _, _) => pats + FilePatterns(e, dir, honoured)
    case Dir(name, entries) => if Prunes(pats, name, dir) then pats else Walk(entries, dir + [name], pats, honoured)
  }

  // p comes from some honoured ignore file outside .git directories, pruned or not.
  ghost predicate From(entries: seq<Node>, dir: seq<string>, honoured: set<string>, p: Pattern)
    decreases entries, 1
  {
    exists e :: e in entries && FromNode(e, dir, honoured, p)
  }

  ghost predicate FromNode(e: Node, dir: seq<string>, honoured: set<string>, p: Pattern)
    decreases e, 0
  {
    match e
    case File(_, _, _) => p in FilePatterns(e, dir, honoured)
    case Dir(name, entries) => name != GIT_DIR && From(entries, dir + [name], honoured, p)
  }

  // path is a directory below dir.
  ghost predicate HasDir(entries: seq<Node>, path: seq<string>)
    decreases path
  {
    path != [] && exists e :: e in entries && e.Dir? && e.name == path[0] && (|path| == 1 || HasDir(e.entries, path[1..]))
  }

  class Resolver {
    const honoured: set<string>
    var patterns: seq<Pattern>

    // Extra patterns come first, so that pruning sees them; then the tree is walked.
    constructor (entries: seq<Node>, honoured: set<string>, extra: seq<string>)
      ensures this.honoured == honoured
      ensures patterns == Walk(entries, [], ParseLines(extra, "", CONFIG_ORIGIN), honoured)
    {
      this.honoured := honoured;
      patterns := [];
      new;
      patterns := ParsePatternLines(extra, "", CONFIG_ORIGIN);
      Load(entries, []);
    }

    method Load(entries: seq<Node>, dir: seq<string>)
      modifies this`patterns
      ensures patterns == Walk(entries, dir, old(patterns), honoured)
      decreases entries, 1
    {
      for i := 0 to |entries|
        invariant Walk(entries[i..], dir, patterns, honoured) == Walk(entries, dir, old(patterns), honoured)
      {
        assert entries[i..][1..] == entries[i + 1..] && entries[i..][0] == entries[i];
        Visit(entries[i], dir);
      }
    }

    method Visit(e: Node, dir: seq<string>)
      modifies this`patterns
      ensures patterns == VisitNode(e, dir, old(patterns), honoured)
      decreases e, 0
    {
      match e
      case File(name, readable, lines) =>
        if name !in honoured {
          return;
        }
        if !readable {
          return;
        }
        var pats := ParsePatternLines(lines, DirText(dir), name);
        patterns := patterns + pats;
      case Dir(name, entries) =>
        if name == GIT_DIR {
          return;
        }
        var ignored := MatchLoop(patterns, DirText(dir + [name]), true, "");
        if ignored {
          return;
        }
        Load(entries, dir + [name]);
    }

    method Match(relPath: string, isDir: bool) returns (hit: bool)
      ensures hit == MatchPath(patterns, relPath, isDir, "")
    {
      hit := MatchLoop(patterns, relPath, isDir, "");
    }

    method IgnoredByAIIgnore(relPath: string, isDir: bool) returns (hit: bool)
      ensures hit == MatchPath(patterns, relPath, isDir, AI_IGNORE)
    {
      hit := MatchLoop(patterns, relPath, isDir, AI_IGNORE);
    }
  }

  // ---------------------------------------------------------------------
  // What pruning leaves out
  // ---------------------------------------------------------------------

  lemma WalkOnlyFrom(entries: seq<Node>, dir: seq<string>, pats: seq<Pattern>, honoured: set<string>, p: Pattern)
    requires p in Walk(entries, dir, pats, honoured) && p !in pats
    ensures From(entries, dir, honoured, p)
    decreases entries, 1
  {
    if entries != [] {
      var next := VisitNode(entries[0], dir, pats, honoured);
      if p in next {
        match entries[0] {
          case File(_, _, _) =>
          case Dir(name, es) => WalkOnlyFrom(es, dir + [name], pats, honoured, p);
        }
        assert FromNode(entries[0], dir, honoured, p);
      } else {
        WalkOnlyFrom(entries[1..], dir, next, honoured, p);
        var e :| e in entries[1..] && FromNode(e, dir, honoured, p);
        assert e in entries;
      }
    }
  }

  // d is a directory ignored by the patterns, and p matches nothing outside d.
  ghost predicate Blocks(d: seq<string>, pats: seq<Pattern>, p: Pattern) {
    d != [] && TreePath(d) && MatchPath(pats, DirText(d), true, "") && ScopedTo(p, d)
  }

  lemma MatchMonotone(a: seq<Pattern>, b: seq<Pattern>, relPath: string, isDir: bool, origin: string)
    requires |a| <= |b| && b[..|a|] == a && MatchPath(a, relPath, isDir, origin)
    ensures MatchPath(b, relPath, isDir, origin)
  {
    var segs := Split(Clean(relPath), '/');
    var i :| 0 <= i < |segs| && MatchOne(a, Cum(segs, i), i < |segs| - 1 || isDir, origin);
    var j :| 0 <= j < |a| && Hits(a[j], Cum(segs, i), i < |segs| - 1 || isDir, origin);
    assert b[j] == a[j];
  }

  lemma TreePathDirOk(d: seq<string>)
    requires TreePath(d)
    ensures DirOk(d)
  {
    assert forall i :: 0 <= i < |d| ==> NameOk(d[i]);
  }

  lemma FromScoped(entries: seq<Node>, dir: seq<string>, honoured: set<string>, p: Pattern)
    requires From(entries, dir, honoured, p) && NamesOk(entries) && TreePath(dir)
    ensures ScopedTo(p, dir)
    decreases entries, 1
  {
    hide ScopedTo;
    var e :| e in entries && FromNode(e, dir, honoured, p);
    assert NodeOk(e);
    match e
    case File(_, _, lines) =>
      TreePathDirOk(dir);
      ParsedScoped(lines, dir, e.name);
    case Dir(name, es) =>
      FromScoped(es, dir + [name], honoured, p);
      ScopedUp(p, dir + [name], |dir|);
      assert (dir + [name])[..|dir|] == dir;
  }

  ghost predicate Prefix(a: seq<Pattern>, b: seq<Pattern>) { |a| <= |b| && b[..|a|] == a }

  lemma PrefixTrans(a: seq<Pattern>, b: seq<Pattern>, c: seq<Pattern>)
    requires Prefix(a, b) && Prefix(b, c)
    ensures Prefix(a, c)
  {
    assert c[..|b|][..|a|] == c[..|a|];
  }

  // A pattern of some ignore file was gathered, or a directory that blocks it was pruned.
  lemma KeptOrBlocked(entries: seq<Node>, dir: seq<string>, pats: seq<Pattern>, honoured: set<string>, p: Pattern,
                      final: seq<Pattern>) returns (d: seq<string>)
    requires From(entries, dir, honoured, p) && NamesOk(entries) && TreePath(dir)
    requires Prefix(Walk(entries, dir, pats, honoured), final)
    ensures p in final || (Under(d, dir) && |d| > |dir| && HasDir(entries, d[|dir|..]) && Blocks(d, final, p))
    decreases entries, 1
  {
    hide Blocks, ScopedTo, FilePatterns, Prunes, MatchPath;
    d := [];
    var next := VisitNode(entries[0], dir, pats, honoured);
    PrefixTrans(next, Walk(entries[1..], dir, next, honoured), final);
    if FromNode(entries[0], dir, honoured, p) {
      assert NodeOk(entries[0]);
      match entries[0] {
        case File(_, _, _) =>
          assert p in next;
          assert p in final;
        case Dir(name, es) =>
          d := EnterDir(name, es, dir, pats, honoured, p, final);
          if p !in final {
            HasDirHere(entries, entries[0], dir, d);
          }
      }
    } else {
      var e :| e in entries && FromNode(e, dir, honoured, p);
      assert e in entries[1..];
      d := KeptOrBlocked(entries[1..], dir, next, honoured, p, final);
      if p !in final {
        HasDirLater(entries, d[|dir|..]);
      }
    }
  }

  lemma EnterDir(name: string, es: seq<Node>, dir: seq<string>, pats: seq<Pattern>, honoured: set<string>, p: Pattern,
                 final: seq<Pattern>) returns (d: seq<string>)
    requires name != GIT_DIR && From(es, dir + [name], honoured, p) && NameOk(name) && NamesOk(es) && TreePath(dir)
    requires Prefix(VisitNode(Dir(name, es), dir, pats, honoured), final)
    ensures p in final || (Under(d, dir + [name]) && (d == dir + [name] || HasDir(es, d[|dir| + 1..])) && Blocks(d, final, p))
    decreases es, 2
  {
    hide ScopedTo, MatchPath;
    var here := dir + [name];
    if Prunes(pats, name, dir) {
      d := here;
      MatchMonotone(pats, final, DirText(here), true, "");
      FromScoped(es, here, honoured, p);
      assert here[..|here|] == here;
    } else {
      d := KeptOrBlocked(es, here, pats, honoured, p, final);
    }
  }

  lemma HasDirHere(entries: seq<Node>, e: Node, dir: seq<string>, d: seq<string>)
    requires e in entries && e.Dir? && Under(d, dir + [e.name])
    requires d == dir + [e.name] || HasDir(e.entries, d[|dir| + 1..])
    ensures Under(d, dir) && HasDir(entries, d[|dir|..])
  {
    var rest := d[|dir|..];
    assert d[..|dir| + 1][..|dir|] == d[..|dir|] == dir;
    assert rest[0] == d[..|dir| + 1][|dir|] == e.name;
    assert rest[1..] == d[|dir| + 1..];
  }

  lemma HasDirLater(entries: seq<Node>, path: seq<string>)
    requires entries != [] && HasDir(entries[1..], path)
    ensures HasDir(entries, path)
  {
    var e :| e in entries[1..] && e.Dir? && e.name == path[0] && (|path| == 1 || HasDir(e.entries, path[1..]));
    assert e in entries;
  }

  // ---------------------------------------------------------------------
  // Paths of the tree
  // ---------------------------------------------------------------------

  lemma TreePathPlain(d: seq<string>)
    requires TreePath(d) && d != []
    ensures Plain(d)
  {
    assert forall i :: 0 <= i < |d| ==> NameOk(d[i]) && Literal(d[i]);
  }

  lemma CleanTreePath(d: seq<string>)
    requires TreePath(d) && d != []
    ensures Clean(DirText(d)) == DirText(d) && Split(DirText(d), '/') == d
  {
    TreePathPlain(d);
    PathIsClean(d);
  }

  // The caller's isDir agrees with the tree at least where the path is one of its directories.
  ghost predicate QuerySound(entries: seq<Node>, relPath: string, isDir: bool) {
    var segs := Split(Clean(relPath), '/');
    HasDir(entries, Split(Cum(segs, |segs| - 1), '/')) ==> isDir
  }

  // Whatever a blocked pattern matches is ignored through the directory that blocks it.
  lemma BlockedStillIgnored(entries: seq<Node>, final: seq<Pattern>, p: Pattern, d: seq<string>,
                            relPath: string, isDir: bool, origin: string, i: nat)
    requires Blocks(d, final, p) && HasDir(entries, d) && QuerySound(entries, relPath, isDir)
    requires !OutsideRoot(Clean(relPath))
    requires var segs := Split(Clean(relPath), '/');
             i < |segs| && Hits(p, Cum(segs, i), i < |segs| - 1 || isDir, origin)
    ensures MatchPath(final, relPath, isDir, "")
  {
    hide MatchOne, Hits, HasDir, Clean, OutsideRoot;
    var segs := Split(Clean(relPath), '/');
    SplitLacks(Clean(relPath), '/');
    var parts := Split(Cum(segs, i), '/');
    HitUnder(p, d, Cum(segs, i), i < |segs| - 1 || isDir, origin);
    var m := DirHit(final, d);
    var k := CumSplit(segs, i, m + 1);
    assert parts[..|d|][..m + 1] == parts[..m + 1];
    if k == |segs| - 1 {
      assert k == i && |parts| == m + 1;
      assert parts[..|d|] == parts;
    }
    MatchOneUp(final, Cum(segs, k), k < |segs| - 1 || isDir);
  }

  lemma HitUnder(p: Pattern, d: seq<string>, path: string, isDir: bool, origin: string)
    requires ScopedTo(p, d) && Hits(p, path, isDir, origin)
    ensures Under(Split(path, '/'), d)
  {
  }

  // An ignored directory is matched at one of its prefixes.
  lemma DirHit(final: seq<Pattern>, d: seq<string>) returns (m: nat)
    requires d != [] && TreePath(d) && MatchPath(final, DirText(d), true, "")
    ensures m < |d| && MatchOne(final, Join(d[..m + 1], '/'), true, "")
  {
    hide MatchOne, Clean;
    CleanTreePath(d);
    m :| 0 <= m < |d| && MatchOne(final, Cum(d, m), m < |d| - 1 || true, "");
    TreePathPlain(d);
    CumIs(d, m);
  }

  lemma MatchOneUp(pats: seq<Pattern>, path: string, isDir: bool)
    requires MatchOne(pats, path, true, "") && isDir
    ensures MatchOne(pats, path, isDir, "")
  {
  }

  // ---------------------------------------------------------------------
  // Pruning changes no verdict
  // ---------------------------------------------------------------------

  // A query against the extra patterns and every honoured ignore file outside .git directories.
  ghost predicate UnprunedMatch(entries: seq<Node>, extra: seq<Pattern>, honoured: set<string>, relPath: string,
      isDir: bool, origin: string) {
    var segs := Split(Clean(relPath), '/');
    && !OutsideRoot(Clean(relPath))
    && exists p, i :: (p in extra || From(entries, [], honoured, p)) && 0 <= i < |segs|
                      && Hits(p, Cum(segs, i), i < |segs| - 1 || isDir, origin)
  }

  lemma GatheredIsUnpruned(entries: seq<Node>, extra: seq<Pattern>, honoured: set<string>, relPath: string,
      isDir: bool, origin: string)
    requires MatchPath(Walk(entries, [], extra, honoured), relPath, isDir, origin)
    ensures UnprunedMatch(entries, extra, honoured, relPath, isDir, origin)
  {
    hide From, Hits, Clean, OutsideRoot, Walk, Split;
    var final := Walk(entries, [], extra, honoured);
    var segs := Split(Clean(relPath), '/');
    var i :| 0 <= i < |segs| && MatchOne(final, Cum(segs, i), i < |segs| - 1 || isDir, origin);
    var j :| 0 <= j < |final| && Hits(final[j], Cum(segs, i), i < |segs| - 1 || isDir, origin);
    assert final[j] in final;
    if final[j] !in extra {
      WalkOnlyFrom(entries, [], extra, honoured, final[j]);
    }
  }

  // An unpruned verdict is reached by the gathered patterns for the same origin, or the path is
  // ignored overall.
  lemma UnprunedIsCovered(entries: seq<Node>, extra: seq<Pattern>, honoured: set<string>, relPath: string,
      isDir: bool, origin: string)
    requires NamesOk(entries) && QuerySound(entries, relPath, isDir)
    requires UnprunedMatch(entries, extra, honoured, relPath, isDir, origin)
    ensures var final := Walk(entries, [], extra, honoured);
            MatchPath(final, relPath, isDir, origin) || MatchPath(final, relPath, isDir, "")
  {
    hide From, Hits, NamesOk, QuerySound, Walk, MatchPath, Clean;
    var segs := Split(Clean(relPath), '/');
    var p, i :| (p in extra || From(entries, [], honoured, p)) && 0 <= i < |segs|
                && Hits(p, Cum(segs, i), i < |segs| - 1 || isDir, origin);
    OneCovered(entries, extra, honoured, relPath, isDir, origin, p, i);
  }

  lemma OneCovered(entries: seq<Node>, extra: seq<Pattern>, honoured: set<string>, relPath: string, isDir: bool,
      origin: string,
                   p: Pattern, i: nat)
    requires NamesOk(entries) && QuerySound(entries, relPath, isDir) && !OutsideRoot(Clean(relPath))
    requires p in extra || From(entries, [], honoured, p)
    requires var segs := Split(Clean(relPath), '/');
             i < |segs| && Hits(p, Cum(segs, i), i < |segs| - 1 || isDir, origin)
    ensures var final := Walk(entries, [], extra, honoured);
            MatchPath(final, relPath, isDir, origin) || MatchPath(final, relPath, isDir, "")
  {
    hide From, Hits, Blocks, NamesOk, QuerySound, HasDir, Clean, OutsideRoot;
    var final := Walk(entries, [], extra, honoured);
    var d: seq<string> := [];
    if p in extra {
      assert final[..|extra|] == extra && p in final[..|extra|];
    } else {
      assert final[..|final|] == final;
      d := KeptOrBlocked(entries, [], extra, honoured, p, final);
    }
    if p in final {
      GatheredHit(final, p, relPath, isDir, origin, i);
    } else {
      assert d[0..] == d;
      BlockedStillIgnored(entries, final, p, d, relPath, isDir, origin, i);
    }
  }

  lemma GatheredHit(final: seq<Pattern>, p: Pattern, relPath: string, isDir: bool, origin: string, i: nat)
    requires p in final && !OutsideRoot(Clean(relPath))
    requires var segs := Split(Clean(relPath), '/');
             i < |segs| && Hits(p, Cum(segs, i), i < |segs| - 1 || isDir, origin)
    ensures MatchPath(final, relPath, isDir, origin)
  {
    hide Hits, Clean, OutsideRoot;
    var j :| 0 <= j < |final| && final[j] == p;
    assert MatchOne(final, Cum(Split(Clean(relPath), '/'), i), i < |Split(Clean(relPath), '/')| - 1 || isDir, origin);
  }

  // Match gives the verdict of the unpruned collection.
  lemma PruningKeepsMatch(entries: seq<Node>, extra: seq<Pattern>, honoured: set<string>, relPath: string, isDir: bool)
    requires NamesOk(entries) && QuerySound(entries, relPath, isDir)
    ensures MatchPath(Walk(entries, [], extra, honoured), relPath, isDir, "")
       <==> UnprunedMatch(entries, extra, honoured, relPath, isDir, "")
  {
    hide UnprunedMatch, MatchPath, NamesOk, QuerySound;
    if MatchPath(Walk(entries, [], extra, honoured), relPath, isDir, "") {
      GatheredIsUnpruned(entries, extra, honoured, relPath, isDir, "");
    }
    if UnprunedMatch(entries, extra, honoured, relPath, isDir, "") {
      UnprunedIsCovered(entries, extra, honoured, relPath, isDir, "");
    }
  }

  // An origin-scoped query can only miss paths that are ignored overall.
  lemma OriginQueryMissesOnlyIgnored(entries: seq<Node>, extra: seq<Pattern>, honoured: set<string>,
      relPath: string, isDir: bool, origin: string)
    requires NamesOk(entries) && QuerySound(entries, relPath, isDir)
    ensures var final := Walk(entries, [], extra, honoured);
            && (MatchPath(final, relPath, isDir, origin) ==> UnprunedMatch(entries, extra, honoured, relPath, isDir, origin))
            && (MatchPath(final, relPath, isDir, origin) != UnprunedMatch(entries, extra, honoured, relPath, isDir, origin)
                ==> MatchPath(final, relPath, isDir, ""))
  {
    hide UnprunedMatch, MatchPath, NamesOk, QuerySound;
    if MatchPath(Walk(entries, [], extra, honoured), relPath, isDir, origin) {
      GatheredIsUnpruned(entries, extra, honoured, relPath, isDir, origin);
    }
    if UnprunedMatch(entries, extra, honoured, relPath, isDir, origin) {
      UnprunedIsCovered(entries, extra, honoured, relPath, isDir, origin);
    }
  }

  lemma UnprunedSame(one: seq<Node>, two: seq<Node>, extra: seq<Pattern>, honoured: set<string>, relPath: string,
      isDir: bool)
    requires forall p :: From(one, [], honoured, p) <==> From(two, [], honoured, p)
    ensures UnprunedMatch(one, extra, honoured, relPath, isDir, "") <==> UnprunedMatch(two, extra, honoured, relPath, isDir, "")
  {
    hide From, Hits;
  }

  // Trees that hold the same ignore files, visited in any two orders, give the same verdicts.
  lemma VisitingOrderIrrelevant(one: seq<Node>, two: seq<Node>, extra: seq<Pattern>, honoured: set<string>,
      relPath: string, isDir: bool)
    requires NamesOk(one) && NamesOk(two)
    requires QuerySound(one, relPath, isDir) && QuerySound(two, relPath, isDir)
    requires forall p :: From(one, [], honoured, p) <==> From(two, [], honoured, p)
    ensures MatchPath(Walk(one, [], extra, honoured), relPath, isDir, "")
       <==> MatchPath(Walk(two, [], extra, honoured), relPath, isDir, "")
  {
    hide MatchPath, NamesOk, QuerySound, From, UnprunedMatch, Walk;
    UnprunedSame(one, two, extra, honoured, relPath, isDir);
    PruningKeepsMatch(one, extra, honoured, relPath, isDir);
    PruningKeepsMatch(two, extra, honoured, relPath, isDir);
  }

  // ---------------------------------------------------------------------
  // What Match answers, told from the lines of the ignore files
  // ---------------------------------------------------------------------

  // Some honoured, readable ignore file outside .git directories has a line that matches the path.
  ghost predicate TreeHits(entries: seq<Node>, dir: seq<string>, honoured: set<string>, path: seq<string>, isDir: bool)
    decreases entries, 1
  {
    exists e :: e in entries && NodeHits(e, dir, honoured, path, isDir)
  }

  ghost predicate NodeHits(e: Node, dir: seq<string>, honoured: set<string>, path: seq<string>, isDir: bool)
    decreases e, 0
  {
    match e
    case File(name, readable, lines) => name in honoured && readable && SomeLineHits(lines, dir, name, path, isDir)
    case Dir(name, es) => name != GIT_DIR && TreeHits(es, dir + [name], honoured, path, isDir)
  }

  lemma HitsTree(entries: seq<Node>, dir: seq<string>, honoured: set<string>, p: Pattern, text: string, isDir: bool)
    requires From(entries, dir, honoured, p) && Hits(p, text, isDir, "")
    ensures TreeHits(entries, dir, honoured, Split(text, '/'), isDir)
    decreases entries
  {
    hide Hits, SomeLineHits, ParseLines;
    var e :| e in entries && FromNode(e, dir, honoured, p);
    match e
    case File(name, readable, lines) =>
      var pats := ParseLines(lines, DirText(dir), name);
      var i :| 0 <= i < |pats| && pats[i] == p;
      assert MatchOne(pats, text, isDir, "");
      LinesHit(lines, dir, name, text, Split(text, '/'), isDir);
    case Dir(name, es) =>
      HitsTree(es, dir + [name], honoured, p, text, isDir);
  }

  lemma TreeGives(entries: seq<Node>, dir: seq<string>, honoured: set<string>, text: string, isDir: bool) returns (p: Pattern)
    requires TreeHits(entries, dir, honoured, Split(text, '/'), isDir)
    ensures From(entries, dir, honoured, p) && Hits(p, text, isDir, "")
    decreases entries
  {
    hide Hits, SomeLineHits, ParseLines;
    var e :| e in entries && NodeHits(e, dir, honoured, Split(text, '/'), isDir);
    match e
    case File(name, readable, lines) =>
      LinesHit(lines, dir, name, text, Split(text, '/'), isDir);
      var pats := ParseLines(lines, DirText(dir), name);
      var i :| 0 <= i < |pats| && Hits(pats[i], text, isDir, "");
      p := pats[i];
      assert FromNode(e, dir, honoured, p);
    case Dir(name, es) =>
      p := TreeGives(es, dir + [name], honoured, text, isDir);
      assert FromNode(e, dir, honoured, p);
  }

  // The extra patterns, or some ignore file, have a line that matches the first i + 1 segments.
  ghost predicate RuledAt(entries: seq<Node>, extra: seq<string>, honoured: set<string>, segs: seq<string>, i: nat, isDir: bool)
    requires i < |segs|
  {
    || HitsAt(extra, [], CONFIG_ORIGIN, segs, i, isDir)
    || TreeHits(entries, [], honoured, segs[..i + 1], i < |segs| - 1 || isDir)
  }

  // Match says ignored if and only if a line of some ignore file, pruned or not, or of the extra patterns matches the
  // path or, as a directory, one of the directories above it.
  lemma MatchMeans(entries: seq<Node>, extra: seq<string>, honoured: set<string>, segs: seq<string>, isDir: bool)
    requires NamesOk(entries) && QuerySound(entries, Join(segs, '/'), isDir) && Plain(segs)
    ensures MatchPath(Walk(entries, [], ParseLines(extra, "", CONFIG_ORIGIN), honoured), Join(segs, '/'), isDir, "")
       <==> exists i: nat :: i < |segs| && RuledAt(entries, extra, honoured, segs, i, isDir)
  {
    hide NamesOk, QuerySound, Walk, MatchPath, UnprunedMatch, RuledAt, ParseLines;
    PruningKeepsMatch(entries, ParseLines(extra, "", CONFIG_ORIGIN), honoured, Join(segs, '/'), isDir);
    PathIsClean(segs);
    UnprunedMeans(entries, extra, honoured, segs, isDir);
  }

  lemma UnprunedMeans(entries: seq<Node>, extra: seq<string>, honoured: set<string>, segs: seq<string>, isDir: bool)
    requires Plain(segs)
    ensures UnprunedMatch(entries, ParseLines(extra, "", CONFIG_ORIGIN), honoured, Join(segs, '/'), isDir, "")
       <==> exists i: nat :: i < |segs| && RuledAt(entries, extra, honoured, segs, i, isDir)
  {
    hide UnprunedMatch, RuledAt, ParseLines, Join, Plain;
    if UnprunedMatch(entries, ParseLines(extra, "", CONFIG_ORIGIN), honoured, Join(segs, '/'), isDir, "") {
      var i := UnprunedRule(entries, extra, honoured, segs, isDir);
    }
    if i: nat :| i < |segs| && RuledAt(entries, extra, honoured, segs, i, isDir) {
      RuleUnpruned(entries, extra, honoured, segs, isDir, i);
    }
  }

  lemma UnprunedRule(entries: seq<Node>, extra: seq<string>, honoured: set<string>, segs: seq<string>, isDir: bool)
      returns (i: nat)
    requires Plain(segs)
    requires UnprunedMatch(entries, ParseLines(extra, "", CONFIG_ORIGIN), honoured, Join(segs, '/'), isDir, "")
    ensures i < |segs| && RuledAt(entries, extra, honoured, segs, i, isDir)
  {
    hide From, Hits, ParseLines, RuledAt, Clean, OutsideRoot, Join, Split, Plain;
    PathIsClean(segs);
    var pats := ParseLines(extra, "", CONFIG_ORIGIN);
    var p, k :| (p in pats || From(entries, [], honoured, p)) && 0 <= k < |segs|
                && Hits(p, Cum(segs, k), k < |segs| - 1 || isDir, "");
    i := k;
    Ruled(entries, extra, honoured, segs, isDir, p, i);
  }

  lemma RuleUnpruned(entries: seq<Node>, extra: seq<string>, honoured: set<string>, segs: seq<string>, isDir: bool, i: nat)
    requires Plain(segs) && i < |segs| && RuledAt(entries, extra, honoured, segs, i, isDir)
    ensures UnprunedMatch(entries, ParseLines(extra, "", CONFIG_ORIGIN), honoured, Join(segs, '/'), isDir, "")
  {
    hide From, Hits, ParseLines, RuledAt, Clean, OutsideRoot, Join, Split, Plain;
    PathIsClean(segs);
    var p := Ruler(entries, extra, honoured, segs, isDir, i);
  }

  lemma Ruled(entries: seq<Node>, extra: seq<string>, honoured: set<string>, segs: seq<string>, isDir: bool, p: Pattern, i: nat)
    requires Plain(segs) && i < |segs| && Hits(p, Cum(segs, i), i < |segs| - 1 || isDir, "")
    requires p in ParseLines(extra, "", CONFIG_ORIGIN) || From(entries, [], honoured, p)
    ensures RuledAt(entries, extra, honoured, segs, i, isDir)
  {
    hide From, Hits, ParseLines, TreeHits, SomeLineHits, Join, Split;
    CumIs(segs, i);
    RootText();
    var at := i < |segs| - 1 || isDir;
    if From(entries, [], honoured, p) {
      HitsTree(entries, [], honoured, p, Cum(segs, i), at);
    } else {
      var pats := ParseLines(extra, DirText([]), CONFIG_ORIGIN);
      var k :| 0 <= k < |pats| && pats[k] == p;
      assert MatchOne(pats, Cum(segs, i), at, "");
      LinesHit(extra, [], CONFIG_ORIGIN, Cum(segs, i), segs[..i + 1], at);
    }
  }

  lemma Ruler(entries: seq<Node>, extra: seq<string>, honoured: set<string>, segs: seq<string>, isDir: bool, i: nat)
      returns (p: Pattern)
    requires Plain(segs) && i < |segs| && RuledAt(entries, extra, honoured, segs, i, isDir)
    ensures p in ParseLines(extra, "", CONFIG_ORIGIN) || From(entries, [], honoured, p)
    ensures Hits(p, Cum(segs, i), i < |segs| - 1 || isDir, "")
  {
    hide From, Hits, ParseLines, TreeHits, SomeLineHits, Join, Split;
    CumIs(segs, i);
    RootText();
    var at := i < |segs| - 1 || isDir;
    if TreeHits(entries, [], honoured, segs[..i + 1], at) {
      p := TreeGives(entries, [], honoured, Cum(segs, i), at);
    } else {
      LinesHit(extra, [], CONFIG_ORIGIN, Cum(segs, i), segs[..i + 1], at);
      var pats := ParseLines(extra, DirText([]), CONFIG_ORIGIN);
      var k :| 0 <= k < |pats| && Hits(pats[k], Cum(segs, i), at, "");
      p := pats[k];
    }
  }

  lemma RootText()
    ensures DirText([]) == ""
  {
  }
}
