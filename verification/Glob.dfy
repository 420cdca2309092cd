// Glob matching on path segments: literals, ?, * inside a segment and ** across segments.
module Glob {
  import opened Strings

  const ANY := "**"

  function SegMatch(p: string, s: string): bool
    decreases |p| + |s|
  {
    if p == "" then s == ""
    else if p[0] == '*' then SegMatch(p[1..], s) || (s != "" && SegMatch(p, s[1..]))
    else s != "" && (p[0] == '?' || p[0] == s[0]) && SegMatch(p[1..], s[1..])
  }

  function GlobMatch(g: seq<string>, path: seq<string>): bool
    decreases |g| + |path|
  {
    if g == [] then path == []
    else if g[0] == ANY then GlobMatch(g[1..], path) || (path != [] && GlobMatch(g, path[1..]))
    else path != [] && SegMatch(g[0], path[0]) && GlobMatch(g[1..], path[1..])
  }

  // doublestar.Match on slash-separated text.
  function Match(glob: string, path: string): bool {
    GlobMatch(Split(glob, '/'), Split(path, '/'))
  }

  predicate IsMeta(c: char) {
    c == '*' || c == '?' || c == '[' || c == ']' || c == '{' || c == '}' || c == '\\'
  }

  // A segment that can only match itself.
  predicate Literal(s: string) {
    s != "" && forall i :: 0 <= i < |s| ==> !IsMeta(s[i])
  }

  predicate AllLiteral(segs: seq<string>) {
    forall i :: 0 <= i < |segs| ==> Literal(segs[i])
  }

  lemma {:induction false} LiteralMatch(p: string, s: string)
    requires forall i :: 0 <= i < |p| ==> !IsMeta(p[i])
    ensures SegMatch(p, s) <==> p == s
  {
    if p != "" && s != "" {
      LiteralMatch(p[1..], s[1..]);
      assert p == [p[0]] + p[1..] && s == [s[0]] + s[1..];
    }
  }

  // A star stands for any characters of one segment, a question mark for one, and any other character for itself.
  lemma {:induction false} StarMeans(q: string, s: string)
    ensures SegMatch("*" + q, s) <==> exists k :: 0 <= k <= |s| && SegMatch(q, s[k..])
    ensures SegMatch("", s) <==> s == ""
    decreases |s|
  {
    var p := "*" + q;
    assert p[1..] == q && s[0..] == s;
    if s != "" {
      StarMeans(q, s[1..]);
      if k :| 0 <= k <= |s[1..]| && SegMatch(q, s[1..][k..]) { assert s[1..][k..] == s[k + 1..]; }
      if k :| 1 <= k <= |s| && SegMatch(q, s[k..]) { assert s[1..][k - 1..] == s[k..]; }
    } else {
      assert forall k :: 0 <= k <= |s| ==> s[k..] == s;
    }
  }

  lemma CharMeans(c: char, q: string, d: char, t: string)
    requires c != '*'
    ensures SegMatch([c] + q, [d] + t) <==> (c == '?' || c == d) && SegMatch(q, t)
    ensures !SegMatch([c] + q, "")
  {
    assert ([c] + q)[1..] == q && ([d] + t)[1..] == t;
  }

  // Two stars stand for any segments, and any other pattern for one segment that it matches.
  lemma {:induction false} AnyMeans(g: seq<string>, path: seq<string>)
    ensures GlobMatch([ANY] + g, path) <==> exists k :: 0 <= k <= |path| && GlobMatch(g, path[k..])
    ensures GlobMatch([], path) <==> path == []
    decreases |path|
  {
    hide SegMatch;
    var p := [ANY] + g;
    assert p[1..] == g && path[0..] == path;
    if path != [] {
      AnyMeans(g, path[1..]);
      if k :| 0 <= k <= |path[1..]| && GlobMatch(g, path[1..][k..]) { assert path[1..][k..] == path[k + 1..]; }
      if k :| 1 <= k <= |path| && GlobMatch(g, path[k..]) { assert path[1..][k - 1..] == path[k..]; }
    } else {
      assert forall k :: 0 <= k <= |path| ==> path[k..] == path;
    }
  }

  lemma SegmentMeans(p: string, g: seq<string>, s: string, rest: seq<string>)
    requires p != ANY
    ensures GlobMatch([p] + g, [s] + rest) <==> SegMatch(p, s) && GlobMatch(g, rest)
    ensures !GlobMatch([p] + g, [])
  {
    hide SegMatch;
    assert ([p] + g)[1..] == g && ([s] + rest)[1..] == rest;
  }

  predicate Under(path: seq<string>, dir: seq<string>) {
    |dir| <= |path| && path[..|dir|] == dir
  }

  // A literal prefix pins the path to that directory; the rest of the glob decides below it.
  lemma {:induction false} Scoped(dir: seq<string>, rest: seq<string>, path: seq<string>)
    requires AllLiteral(dir)
    ensures GlobMatch(dir + rest, path) <==> Under(path, dir) && GlobMatch(rest, path[|dir|..])
  {
    if dir == [] {
      assert dir + rest == rest && path[0..] == path;
    } else {
      var g := dir + rest;
      assert g[0] == dir[0] && g[1..] == dir[1..] + rest;
      assert Literal(dir[0]) && dir[0] != ANY by {
        assert ANY[0] == '*';
      }
      if path != [] {
        Scoped(dir[1..], rest, path[1..]);
        LiteralMatch(dir[0], path[0]);
        assert path == [path[0]] + path[1..] && dir == [dir[0]] + dir[1..];
        if Under(path, dir) {
          assert path[1..][..|dir| - 1] == path[..|dir|][1..];
          assert path[1..][|dir| - 1..] == path[|dir|..];
        }
        if Under(path[1..], dir[1..]) && dir[0] == path[0] {
          assert path[..|dir|] == [path[0]] + path[1..][..|dir| - 1];
        }
      }
    }
  }

  // ** followed by one segment pattern: any depth, last segment decides.
  lemma {:induction false} AnyDepth(core: string, path: seq<string>)
    requires core != ANY
    ensures GlobMatch([ANY, core], path) <==> path != [] && SegMatch(core, path[|path| - 1])
    decreases |path|
  {
    var g := [ANY, core];
    assert g[0] == ANY && g[1..] == [core] && [core][0] == core && [core][1..] == [];
    if path != [] {
      AnyDepth(core, path[1..]);
      assert GlobMatch([core], path) <==> SegMatch(core, path[0]) && path[1..] == [];
      assert GlobMatch(g, path) <==> GlobMatch([core], path) || GlobMatch(g, path[1..]);
      if |path| > 1 {
        assert path[1..][|path| - 2] == path[|path| - 1];
      }
    }
  }
}
