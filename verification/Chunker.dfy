// Cutting a file into chunks: embedding/chunker.go. Texts are sequences of runes.
module Chunker {
  import opened Prelude
  import opened Strings

  datatype ChunkerConfig = ChunkerConfig(maxChunkSize: int, overlap: int) {
    // An overlap below the chunk size is what makes the window advance.
    function WithDefaults(): (c: ChunkerConfig)
      ensures c.Sound()
      ensures Sound() && overlap > 0 ==> c == this
      ensures maxChunkSize > 0 ==> c.maxChunkSize == maxChunkSize
      ensures maxChunkSize <= 0 ==> c.maxChunkSize == 1500
      ensures overlap <= 0 && c.maxChunkSize > 200 ==> c.overlap == 200
      ensures (if overlap <= 0 then 200 else overlap) >= c.maxChunkSize ==> 0 <= c.maxChunkSize - 5 * c.overlap < 5
    {
      var m := if maxChunkSize <= 0 then 1500 else maxChunkSize;
      var o := if overlap <= 0 then 200 else overlap;
      ChunkerConfig(m, if o >= m then m / 5 else o)
    }

    predicate Sound() { 0 <= overlap < maxChunkSize }
  }

  // A fragment with the 1-based line it starts on.
  datatype Piece = Piece(text: string, startLine: int)

  datatype Section = Section(text: string, startLine: int, endLine: int)

  function Newlines(s: string): nat {
    if s == "" then 0 else (if s[|s| - 1] == '\n' then 1 else 0) + Newlines(s[..|s| - 1])
  }

  lemma {:induction false} NewlinesConcat(a: string, b: string)
    ensures Newlines(a + b) == Newlines(a) + Newlines(b)
  {
    if b == "" {
      assert a + b == a;
    } else {
      assert (a + b)[..|a + b| - 1] == a + b[..|b| - 1];
      NewlinesConcat(a, b[..|b| - 1]);
    }
  }

  // ---------------------------------------------------------------------
  // Where a piece lies
  // ---------------------------------------------------------------------

  // p is a stretch of its parent starting at rune off, and its start line counts the lines before it.
  predicate Within(parent: Piece, p: Piece, off: nat) {
    && off + |p.text| <= |parent.text|
    && parent.text[off..off + |p.text|] == p.text
    && p.startLine == parent.startLine + Newlines(parent.text[..off])
  }

  lemma WithinTrans(root: Piece, p: Piece, off: nat, q: Piece, rel: nat)
    requires Within(root, p, off) && Within(p, q, rel)
    ensures Within(root, q, off + rel)
  {
    assert root.text[off + rel..off + rel + |q.text|] == root.text[off..off + |p.text|][rel..rel + |q.text|];
    assert root.text[..off + rel] == root.text[..off] + p.text[..rel];
    NewlinesConcat(root.text[..off], p.text[..rel]);
  }

  // Every piece that holds text lies in the parent.
  ghost predicate AllWithin(parent: Piece, ps: seq<Piece>, offs: seq<nat>) {
    && |offs| == |ps|
    && forall i :: 0 <= i < |ps| && ps[i].text != "" ==> Within(parent, ps[i], offs[i])
  }

  ghost predicate Holds(ps: seq<Piece>, offs: seq<nat>, i: nat, k: nat) {
    i < |ps| && i < |offs| && offs[i] <= k < offs[i] + |ps[i].text|
  }

  ghost predicate Held(ps: seq<Piece>, offs: seq<nat>, k: nat) { exists i: nat :: Holds(ps, offs, i, k) }

  // Every rune that is not white space lies in some piece.
  ghost predicate Covers(text: string, ps: seq<Piece>, offs: seq<nat>) {
    forall k :: 0 <= k < |text| && !IsSpace(text[k]) ==> Held(ps, offs, k)
  }

  ghost predicate Tiles(parent: Piece, ps: seq<Piece>, offs: seq<nat>) {
    AllWithin(parent, ps, offs) && Covers(parent.text, ps, offs)
  }

  predicate Bounded(ps: seq<Piece>, max: int) { forall i :: 0 <= i < |ps| ==> |ps[i].text| <= max }

  // ---------------------------------------------------------------------
  // Fixed windows
  // ---------------------------------------------------------------------

  // Full windows, each starting overlap runes before the end of the one before; the last ends the text.
  ghost predicate Windows(text: string, cfg: ChunkerConfig, ps: seq<Piece>, offs: seq<nat>) {
    && |offs| == |ps| && ps != [] && offs[0] == 0
    && (forall j :: 0 <= j < |ps| - 1 ==>
          |ps[j].text| == cfg.maxChunkSize && offs[j + 1] == offs[j] + cfg.maxChunkSize - cfg.overlap)
    && offs[|ps| - 1] + |ps[|ps| - 1].text| == |text|
  }

  method FixedSizePieces(p: Piece, cfg: ChunkerConfig) returns (parts: seq<Piece>, ghost offs: seq<nat>)
    requires cfg.Sound()
    ensures Tiles(p, parts, offs) && Bounded(parts, cfg.maxChunkSize)
    ensures Windows(p.text, cfg, parts, offs)
  {
    hide Newlines, IsSpace;
    var runes := p.text;
    if |runes| <= cfg.maxChunkSize {
      OneTile(p);
      return [p], [0];
    }
    parts, offs := [], [];
    var i := 0;
    while true
      invariant 0 <= i < |runes|
      invariant |offs| == |parts| && AllWithin(p, parts, offs) && Bounded(parts, cfg.maxChunkSize)
      invariant forall k :: 0 <= k < i ==> Held(parts, offs, k)
      invariant forall j :: 0 <= j < |parts| ==> |parts[j].text| == cfg.maxChunkSize
      invariant forall j :: 0 <= j < |parts| - 1 ==> offs[j + 1] == offs[j] + cfg.maxChunkSize - cfg.overlap
      invariant if parts == [] then i == 0
                else offs[0] == 0 && i == offs[|parts| - 1] + cfg.maxChunkSize - cfg.overlap
      decreases |runes| - i
    {
      var end := i + cfg.maxChunkSize;
      if end > |runes| {
        end := |runes|;
      }
      var part := Piece(runes[i..end], p.startLine + Newlines(runes[..i]));
      ghost var was, wasOffs := parts, offs;
      parts := parts + [part];
      offs := offs + [i];
      HoldsSnoc(was, wasOffs, part, i, i, end);
      if end == |runes| {
        break;
      }
      i := end - cfg.overlap;
      if i < 0 {
        i := 0;
      }
    }
  }

  lemma OneTile(p: Piece)
    ensures Tiles(p, [p], [0])
  {
    assert p.text[..0] == "" && p.text[0..|p.text|] == p.text;
    forall k | 0 <= k < |p.text| ensures Held([p], [0], k) { assert Holds([p], [0], 0, k); }
  }

  // One more piece keeps what is covered and adds its own stretch.
  lemma HoldsSnoc(ps: seq<Piece>, offs: seq<nat>, p: Piece, off: nat, upTo: nat, end: nat)
    requires |offs| == |ps| && off <= upTo <= end == off + |p.text|
    requires forall k :: 0 <= k < upTo ==> Held(ps, offs, k)
    ensures forall k :: 0 <= k < end ==> Held(ps + [p], offs + [off], k)
  {
    forall k | 0 <= k < end ensures Held(ps + [p], offs + [off], k) {
      if k < upTo {
        assert Held(ps, offs, k);
        var j: nat :| Holds(ps, offs, j, k);
        assert Holds(ps + [p], offs + [off], j, k);
      } else {
        assert Holds(ps + [p], offs + [off], |ps|, k);
      }
    }
  }

  // ---------------------------------------------------------------------
  // Groups of lines
  // ---------------------------------------------------------------------

  function Flatten(groups: seq<seq<string>>): seq<string> {
    if groups == [] then [] else Flatten(groups[..|groups| - 1]) + groups[|groups| - 1]
  }

  predicate AllNonEmpty(groups: seq<seq<string>>) { forall i :: 0 <= i < |groups| ==> groups[i] != [] }

  // The pieces are the groups, joined back, with cumulative start lines.
  predicate Spells(ps: seq<Piece>, groups: seq<seq<string>>, startLine: int) {
    && |ps| == |groups|
    && forall i :: 0 <= i < |ps| ==>
         ps[i].text == Join(groups[i], '\n') && ps[i].startLine == startLine + |Flatten(groups[..i])|
  }

  predicate Blank(line: string) { TrimSpace(line) == "" }

  // Groups that end with their first blank line, except that a leading line never ends one.
  predicate BlankCuts(groups: seq<seq<string>>) {
    forall i :: 0 <= i < |groups| ==>
      && (forall j :: 0 < j < |groups[i]| - 1 ==> !Blank(groups[i][j]))
      && (i < |groups| - 1 ==> |groups[i]| >= 2 && Blank(groups[i][|groups[i]| - 1]))
  }

  // A group that begins, at line at, with a line that starts a section, and holds no second one.
  ghost predicate KeyGroup(g: seq<string>, at: nat, starts: (nat, string) -> bool, first: bool) {
    && (forall j :: 0 < j < |g| ==> !starts(at + j, g[j]))
    && (!first ==> g != [] && starts(at, g[0]))
  }

  ghost predicate KeyCuts(groups: seq<seq<string>>, starts: (nat, string) -> bool) {
    forall i :: 0 <= i < |groups| ==> KeyGroup(groups[i], |Flatten(groups[..i])|, starts, i == 0)
  }

  // Joining the joined groups joins all lines.
  lemma {:induction false} JoinGroups(groups: seq<seq<string>>, parts: seq<string>)
    requires AllNonEmpty(groups) && |parts| == |groups| && forall i :: 0 <= i < |parts| ==> parts[i] == Join(groups[i], '\n')
    ensures Join(parts, '\n') == Join(Flatten(groups), '\n')
  {
    hide Join;
    var n := |groups| - 1;
    if groups == [] {
      FlattenNone();
    } else if n == 0 {
      assert Flatten(groups[..0]) == [] by { FlattenNone(); }
      assert Flatten(groups) == groups[0] && parts == [parts[0]];
      JoinOne(parts[0]);
    } else {
      var a, g := Flatten(groups[..n]), groups[n];
      JoinGroups(groups[..n], parts[..n]);
      JoinTake(parts, n, '\n');
      assert parts[n..] == [parts[n]];
      JoinOne(parts[n]);
      FlattenFull(groups[..n]);
      JoinTake(a + g, |a|, '\n');
      assert (a + g)[..|a|] == a && (a + g)[|a|..] == g;
    }
  }

  lemma JoinOne(part: string)
    ensures Join([part], '\n') == part
  {
  }

  lemma FlattenFull(groups: seq<seq<string>>)
    requires groups != [] && AllNonEmpty(groups)
    ensures Flatten(groups) != []
  {
  }

  lemma FlattenNone()
    ensures Flatten([]) == []
  {
  }

  // Where group i starts in the joined text.
  function GroupOffset(groups: seq<seq<string>>, i: nat): nat
    requires i <= |groups|
  {
    var before := Flatten(groups[..i]);
    if before == [] then 0 else |Join(before, '\n')| + 1
  }

  function GroupOffsets(groups: seq<seq<string>>): (r: seq<nat>) {
    seq(|groups|, i requires 0 <= i < |groups| => GroupOffset(groups, i))
  }

  lemma {:induction false} FlattenTake(groups: seq<seq<string>>, i: nat)
    requires i < |groups|
    ensures exists rest :: Flatten(groups) == Flatten(groups[..i]) + groups[i] + rest
  {
    var n := |groups| - 1;
    if i == n {
      assert Flatten(groups) == Flatten(groups[..i]) + groups[i] + [];
    } else {
      FlattenTake(groups[..n], i);
      assert groups[..n][..i] == groups[..i];
      var rest :| Flatten(groups[..n]) == Flatten(groups[..i]) + groups[i] + rest;
      assert Flatten(groups) == Flatten(groups[..i]) + groups[i] + (rest + groups[n]);
    }
  }

  lemma {:induction false} JoinedNewlines(lines: seq<string>)
    requires lines != [] && AllLack(lines, '\n')
    ensures Newlines(Join(lines, '\n')) == |lines| - 1
  {
    assert Lacks(lines[0], '\n');
    NoNewline(lines[0]);
    if |lines| > 1 {
      JoinedNewlines(lines[1..]);
      NewlinesConcat(lines[0] + ['\n'], Join(lines[1..], '\n'));
      NewlinesConcat(lines[0], ['\n']);
      assert Newlines(['\n']) == 1 + Newlines("");
    }
  }

  lemma {:induction false} NoNewline(s: string)
    requires Lacks(s, '\n')
    ensures Newlines(s) == 0
  {
    if s != "" {
      NoNewline(s[..|s| - 1]);
    }
  }

  // Lines a, g and rest joined: where g lies.
  lemma StretchPlaced(a: seq<string>, g: seq<string>, rest: seq<string>)
    requires g != [] && AllLack(a + g + rest, '\n')
    ensures var text := Join(a + g + rest, '\n');
            var off := if a == [] then 0 else |Join(a, '\n')| + 1;
            && off + |Join(g, '\n')| <= |text| && text[off..off + |Join(g, '\n')|] == Join(g, '\n')
            && Newlines(text[..off]) == |a|
            && (rest == [] ==> off + |Join(g, '\n')| == |text|)
            && (rest != [] ==> off + |Join(g, '\n')| < |text| && text[off + |Join(g, '\n')|] == '\n')
  {
    hide Join;
    var all := a + g + rest;
    var text, tail := Join(all, '\n'), g + rest;
    assert all == a + tail;
    var off := if a == [] then 0 else |Join(a, '\n')| + 1;
    if a == [] {
      assert all == tail && text[0..] == text;
    } else {
      JoinTake(all, |a|, '\n');
      assert all[..|a|] == a && all[|a|..] == tail;
      var head := Join(a, '\n') + ['\n'];
      assert text[..|head|] == head;
      forall i | 0 <= i < |a| ensures Lacks(a[i], '\n') { assert a[i] == all[i]; }
      JoinedNewlines(a);
      NewlinesConcat(Join(a, '\n'), ['\n']);
      assert Newlines(['\n']) == 1 + Newlines("");
    }
    assert off + |Join(tail, '\n')| == |text| && text[off..] == Join(tail, '\n');
    if rest == [] {
      assert tail == g;
    } else {
      JoinTake(tail, |g|, '\n');
      assert tail[..|g|] == g && tail[|g|..] == rest;
      assert text[off..][..|Join(g, '\n')|] == text[off..off + |Join(g, '\n')|];
      assert text[off..][|Join(g, '\n')|] == '\n';
    }
  }

  lemma GroupPlaced(parent: Piece, groups: seq<seq<string>>, i: nat)
    requires Flatten(groups) == Split(parent.text, '\n') && AllNonEmpty(groups) && i < |groups|
    ensures Within(parent, Piece(Join(groups[i], '\n'), parent.startLine + |Flatten(groups[..i])|), GroupOffset(groups, i))
  {
    hide Flatten, Join, Newlines;
    FlattenTake(groups, i);
    var a, g := Flatten(groups[..i]), groups[i];
    var rest :| Flatten(groups) == a + g + rest;
    SplitLacks(parent.text, '\n');
    JoinSplit(parent.text, '\n');
    StretchPlaced(a, g, rest);
  }

  // Between two groups only the newline that joined them is lost.
  lemma {:induction false} GroupsCover(groups: seq<seq<string>>, k: nat)
    requires AllNonEmpty(groups) && groups != [] && AllLack(Flatten(groups), '\n')
    requires k < |Join(Flatten(groups), '\n')| && Join(Flatten(groups), '\n')[k] != '\n'
    ensures exists i :: 0 <= i < |groups| && GroupOffset(groups, i) <= k < GroupOffset(groups, i) + |Join(groups[i], '\n')|
  {
    hide Join;
    var n := |groups| - 1;
    var init := groups[..n];
    var a, g := Flatten(init), groups[n];
    assert Flatten(groups) == a + g + [];
    StretchPlaced(a, g, []);
    if k < GroupOffset(groups, n) {
      JoinTake(a + g, |a|, '\n');
      assert (a + g)[..|a|] == a && (a + g)[|a|..] == g;
      forall i | 0 <= i < |a| ensures Lacks(a[i], '\n') { assert a[i] == Flatten(groups)[i]; }
      assert init != [] by { assert Flatten([]) == []; }
      GroupsCover(init, k);
      var i :| 0 <= i < |init| && GroupOffset(init, i) <= k < GroupOffset(init, i) + |Join(init[i], '\n')|;
      assert init[..i] == groups[..i] && init[i] == groups[i];
    }
  }

  lemma GroupsTile(parent: Piece, groups: seq<seq<string>>, ps: seq<Piece>)
    requires Flatten(groups) == Split(parent.text, '\n') && AllNonEmpty(groups)
    requires Spells(ps, groups, parent.startLine)
    ensures Tiles(parent, ps, GroupOffsets(groups))
  {
    hide Flatten, Join, GroupOffset, Within;
    var offs := GroupOffsets(groups);
    forall i | 0 <= i < |ps| ensures Within(parent, ps[i], offs[i]) {
      GroupPlaced(parent, groups, i);
    }
    GroupsReach(parent.text, groups, ps);
  }

  lemma GroupsReach(text: string, groups: seq<seq<string>>, ps: seq<Piece>)
    requires Flatten(groups) == Split(text, '\n') && AllNonEmpty(groups)
    requires |ps| == |groups| && forall i :: 0 <= i < |ps| ==> ps[i].text == Join(groups[i], '\n')
    ensures Covers(text, ps, GroupOffsets(groups))
  {
    hide Join, GroupOffset;
    var offs := GroupOffsets(groups);
    SplitLacks(text, '\n');
    JoinSplit(text, '\n');
    forall k | 0 <= k < |text| && !IsSpace(text[k]) ensures Held(ps, offs, k) {
      GroupsCover(groups, k);
      var i :| 0 <= i < |groups| && GroupOffset(groups, i) <= k < GroupOffset(groups, i) + |Join(groups[i], '\n')|;
      assert Holds(ps, offs, i, k);
    }
  }

  lemma FlattenSnoc(groups: seq<seq<string>>, g: seq<string>)
    ensures Flatten(groups + [g]) == Flatten(groups) + g
  {
    assert (groups + [g])[..|groups|] == groups;
  }

  lemma SpellsSnoc(ps: seq<Piece>, groups: seq<seq<string>>, startLine: int, g: seq<string>)
    requires Spells(ps, groups, startLine)
    ensures Spells(ps + [Piece(Join(g, '\n'), startLine + |Flatten(groups)|)], groups + [g], startLine)
  {
    hide Join, Flatten;
    forall i | 0 <= i <= |groups| ensures (groups + [g])[..i] == groups[..i] {}
    assert groups[..|groups|] == groups;
  }

  lemma KeyCutsSnoc(groups: seq<seq<string>>, starts: (nat, string) -> bool, g: seq<string>)
    requires KeyCuts(groups, starts)
    requires KeyGroup(g, |Flatten(groups)|, starts, groups == [])
    ensures KeyCuts(groups + [g], starts)
  {
    hide Flatten, KeyGroup;
    forall i | 0 <= i <= |groups| ensures (groups + [g])[..i] == groups[..i] {}
    assert groups[..|groups|] == groups;
  }

  function Texts(ps: seq<Piece>): (r: seq<string>)
    ensures |r| == |ps| && forall i :: 0 <= i < |ps| ==> r[i] == ps[i].text
  {
    seq(|ps|, i requires 0 <= i < |ps| => ps[i].text)
  }

  // The line the piece starts on is counted by the lines cut off before it.
  method SplitBySingleBlanks(p: Piece) returns (parts: seq<Piece>, ghost groups: seq<seq<string>>)
    ensures Join(Texts(parts), '\n') == p.text
    ensures Flatten(groups) == Split(p.text, '\n') && AllNonEmpty(groups) && BlankCuts(groups)
    ensures Spells(parts, groups, p.startLine)
    ensures Tiles(p, parts, GroupOffsets(groups))
  {
    hide Split, Join, Flatten, TrimSpace, Within, Covers, GroupOffset;
    var lines := Split(p.text, '\n');
    parts, groups := [], [];
    var current: seq<string> := [];
    var startLine := p.startLine;
    FlattenNone();
    for i := 0 to |lines|
      invariant Flatten(groups) + current == lines[..i]
      invariant AllNonEmpty(groups) && Spells(parts, groups, p.startLine) && startLine == p.startLine + |Flatten(groups)|
      invariant forall i :: 0 <= i < |groups| ==> ClosedByBlank(groups[i])
      invariant forall j :: 0 < j < |current| ==> !Blank(current[j])
    {
      var line := lines[i];
      ghost var was := current;
      if Blank(line) && |current| > 0 {
        current := current + [line];
        SpellsSnoc(parts, groups, p.startLine, current);
        FlattenSnoc(groups, current);
        parts := parts + [Piece(Join(current, '\n'), startLine)];
        startLine := startLine + |current|;
        groups := groups + [current];
        current := [];
      } else {
        current := current + [line];
      }
    }
    assert lines[..|lines|] == lines;
    if |current| > 0 {
      SpellsSnoc(parts, groups, p.startLine, current);
      FlattenSnoc(groups, current);
      parts := parts + [Piece(Join(current, '\n'), startLine)];
      groups := groups + [current];
    }
    GroupsTile(p, groups, parts);
    JoinGroups(groups, Texts(parts));
    JoinSplit(p.text, '\n');
  }

  predicate ClosedByBlank(g: seq<string>) {
    && |g| >= 2 && Blank(g[|g| - 1])
    && forall j :: 0 < j < |g| - 1 ==> !Blank(g[j])
  }

  // Cutting before every line that starts a section.
  method CutAtKeys(text: string, starts: (nat, string) -> bool)
      returns (parts: seq<string>, ghost groups: seq<seq<string>>)
    ensures Join(parts, '\n') == text
    ensures Flatten(groups) == Split(text, '\n') && AllNonEmpty(groups) && KeyCuts(groups, starts)
    ensures |parts| == |groups| && groups != [] && forall i :: 0 <= i < |parts| ==> parts[i] == Join(groups[i], '\n')
  {
    hide Split, Join, Flatten, KeyCuts;
    var lines := Split(text, '\n');
    parts, groups := [], [];
    var current: seq<string> := [];
    FlattenNone();
    NoKeyCuts(starts);
    for i := 0 to |lines|
      invariant Flatten(groups) + current == lines[..i] && (current == [] ==> i == 0)
      invariant AllNonEmpty(groups) && KeyCuts(groups, starts)
      invariant |parts| == |groups| && forall i :: 0 <= i < |parts| ==> parts[i] == Join(groups[i], '\n')
      invariant KeyGroup(current, |Flatten(groups)|, starts, groups == [])
    {
      var line := lines[i];
      if starts(i, line) && |current| > 0 {
        KeyCutsSnoc(groups, starts, current);
        FlattenSnoc(groups, current);
        parts := parts + [Join(current, '\n')];
        groups := groups + [current];
        current := [];
      }
      current := current + [line];
    }
    assert lines[..|lines|] == lines;
    if |current| > 0 {
      KeyCutsSnoc(groups, starts, current);
      FlattenSnoc(groups, current);
      parts := parts + [Join(current, '\n')];
      groups := groups + [current];
    }
    JoinGroups(groups, parts);
    JoinSplit(text, '\n');
  }

  lemma NoKeyCuts(starts: (nat, string) -> bool)
    ensures KeyCuts([], starts)
  {
  }

  // ---------------------------------------------------------------------
  // Splitting what is still too long
  // ---------------------------------------------------------------------

  lemma HeldSnoc(ps: seq<Piece>, offs: seq<nat>, p: Piece, off: nat, k: nat)
    requires |offs| == |ps|
    ensures Held(ps + [p], offs + [off], k) <==> Held(ps, offs, k) || off <= k < off + |p.text|
  {
    if Held(ps + [p], offs + [off], k) {
      var i: nat :| Holds(ps + [p], offs + [off], i, k);
      assert i < |ps| ==> Holds(ps, offs, i, k);
    }
    if Held(ps, offs, k) {
      var i: nat :| Holds(ps, offs, i, k);
      assert Holds(ps + [p], offs + [off], i, k);
    }
    if off <= k < off + |p.text| {
      assert Holds(ps + [p], offs + [off], |ps|, k);
    }
  }

  lemma HeldConcat(a: seq<Piece>, aOffs: seq<nat>, b: seq<Piece>, bOffs: seq<nat>, k: nat)
    requires |aOffs| == |a| && |bOffs| == |b|
    ensures Held(a, aOffs, k) || Held(b, bOffs, k) ==> Held(a + b, aOffs + bOffs, k)
  {
    if Held(a, aOffs, k) {
      var i: nat :| Holds(a, aOffs, i, k);
      assert Holds(a + b, aOffs + bOffs, i, k);
    }
    if Held(b, bOffs, k) {
      var i: nat :| Holds(b, bOffs, i, k);
      assert Holds(a + b, aOffs + bOffs, |a| + i, k);
    }
  }

  function Shift(offs: seq<nat>, base: nat): (r: seq<nat>) {
    seq(|offs|, i requires 0 <= i < |offs| => offs[i] + base)
  }

  // What `kept` covers of the non-blank runes, `now` covers too.
  ghost predicate StillHeld(text: string, ps: seq<Piece>, offs: seq<nat>, now: seq<Piece>, nowOffs: seq<nat>) {
    forall k: nat :: k < |text| && !IsSpace(text[k]) && Held(ps, offs, k) ==> Held(now, nowOffs, k)
  }

  // The pieces of a piece lie in the whole, and cover what it covered.
  lemma Refine(root: Piece, p: Piece, off: nat, subs: seq<Piece>, rel: seq<nat>)
    requires Within(root, p, off) && Tiles(p, subs, rel)
    ensures AllWithin(root, subs, Shift(rel, off))
    ensures forall k: nat :: off <= k < off + |p.text| && !IsSpace(root.text[k]) ==> Held(subs, Shift(rel, off), k)
  {
    hide Within, IsSpace;
    WithinMeans(root, p, off);
    forall i | 0 <= i < |subs| && subs[i].text != "" ensures Within(root, subs[i], Shift(rel, off)[i]) {
      WithinTrans(root, p, off, subs[i], rel[i]);
    }
    forall k: nat | off <= k < off + |p.text| && !IsSpace(root.text[k]) ensures Held(subs, Shift(rel, off), k) {
      assert p.text[k - off] == root.text[k];
      assert Held(subs, rel, k - off);
      var i: nat :| Holds(subs, rel, i, k - off);
      assert Holds(subs, Shift(rel, off), i, k);
    }
  }

  lemma WithinMeans(root: Piece, p: Piece, off: nat)
    requires Within(root, p, off)
    ensures off + |p.text| <= |root.text| && forall k :: 0 <= k < |p.text| ==> p.text[k] == root.text[off + k]
  {
    assert forall k :: 0 <= k < |p.text| ==> p.text[k] == root.text[off..off + |p.text|][k];
  }

  datatype Splitter = BlankLines | FixedSize

  // The pieces of p between its blank lines.
  ghost predicate CutAtBlanks(p: Piece, ps: seq<Piece>) {
    exists groups :: Flatten(groups) == Split(p.text, '\n') && AllNonEmpty(groups) && BlankCuts(groups) && Spells(ps, groups, p.startLine)
  }

  // The windows of p, each starting on its line.
  ghost predicate CutInWindows(p: Piece, cfg: ChunkerConfig, ps: seq<Piece>) {
    exists offs :: Windows(p.text, cfg, ps, offs) && AllWithin(p, ps, offs)
  }

  // What a splitter makes of one piece.
  ghost predicate Cut(splitter: Splitter, p: Piece, cfg: ChunkerConfig, ps: seq<Piece>) {
    match splitter
    case BlankLines => CutAtBlanks(p, ps)
    case FixedSize => CutInWindows(p, cfg, ps)
  }

  function Concat(blocks: seq<seq<Piece>>): seq<Piece> {
    if blocks == [] then [] else Concat(blocks[..|blocks| - 1]) + blocks[|blocks| - 1]
  }

  // Oversized pieces are cut by the splitter, in place; the others stay.
  ghost predicate CutOversized(parts: seq<Piece>, cfg: ChunkerConfig, splitter: Splitter, result: seq<Piece>) {
    exists blocks :: result == Concat(blocks) && BlocksOf(parts, cfg, splitter, blocks)
  }

  ghost predicate BlocksOf(parts: seq<Piece>, cfg: ChunkerConfig, splitter: Splitter, blocks: seq<seq<Piece>>) {
    && |blocks| == |parts|
    && forall i :: 0 <= i < |parts| ==> BlockOf(parts[i], cfg, splitter, blocks[i])
  }

  ghost predicate BlockOf(p: Piece, cfg: ChunkerConfig, splitter: Splitter, block: seq<Piece>) {
    if |p.text| > cfg.maxChunkSize then Cut(splitter, p, cfg, block) else block == [p]
  }

  lemma BlocksSnoc(parts: seq<Piece>, cfg: ChunkerConfig, splitter: Splitter, blocks: seq<seq<Piece>>, p: Piece, block: seq<Piece>)
    requires BlocksOf(parts, cfg, splitter, blocks) && BlockOf(p, cfg, splitter, block)
    ensures BlocksOf(parts + [p], cfg, splitter, blocks + [block]) && Concat(blocks + [block]) == Concat(blocks) + block
  {
    hide BlockOf;
    assert (blocks + [block])[..|blocks|] == blocks;
  }

  method Apply(splitter: Splitter, p: Piece, cfg: ChunkerConfig) returns (parts: seq<Piece>, ghost offs: seq<nat>)
    requires cfg.Sound()
    ensures Tiles(p, parts, offs) && Cut(splitter, p, cfg, parts)
    ensures splitter.FixedSize? ==> Bounded(parts, cfg.maxChunkSize)
  {
    hide Tiles, Windows, Bounded, Flatten, Split, BlankCuts, Spells, AllNonEmpty, AllWithin;
    match splitter {
      case BlankLines =>
        ghost var groups;
        parts, groups := SplitBySingleBlanks(p);
        offs := GroupOffsets(groups);
      case FixedSize =>
        parts, offs := FixedSizePieces(p, cfg);
        WindowsCut(p, cfg, parts, offs);
    }
  }

  method SplitOversized(parts: seq<Piece>, cfg: ChunkerConfig, splitter: Splitter, ghost root: Piece,
      ghost offs: seq<nat>)
    returns (result: seq<Piece>, ghost resultOffs: seq<nat>)
    requires cfg.Sound() && Tiles(root, parts, offs)
    ensures Tiles(root, result, resultOffs)
    ensures splitter.FixedSize? ==> Bounded(result, cfg.maxChunkSize)
    ensures Bounded(parts, cfg.maxChunkSize) ==> result == parts
    ensures CutOversized(parts, cfg, splitter, result)
  {
    hide Within, IsSpace, Held, Cut;
    result, resultOffs := [], [];
    ghost var blocks: seq<seq<Piece>> := [];
    NothingHeld(root.text);
    for i := 0 to |parts|
      invariant AllWithin(root, result, resultOffs)
      invariant StillHeld(root.text, parts[..i], offs[..i], result, resultOffs)
      invariant splitter.FixedSize? ==> Bounded(result, cfg.maxChunkSize)
      invariant Bounded(parts[..i], cfg.maxChunkSize) ==> result == parts[..i]
      invariant BlocksOf(parts[..i], cfg, splitter, blocks) && result == Concat(blocks)
    {
      var p := parts[i];
      var subs := [p];
      ghost var rel := [0];
      if |p.text| > cfg.maxChunkSize {
        subs, rel := Apply(splitter, p, cfg);
      } else {
        OneTile(p);
      }
      SplitStep(root, parts, offs, i, result, resultOffs, subs, rel);
      assert parts[..i + 1][i] == p;
      assert parts[..i + 1] == parts[..i] + [p];
      BlocksSnoc(parts[..i], cfg, splitter, blocks, p, subs);
      blocks := blocks + [subs];
      result := result + subs;
      resultOffs := resultOffs + Shift(rel, offs[i]);
    }
    assert parts[..|parts|] == parts && offs[..|offs|] == offs;
    AllStillHeld(root.text, parts, offs, result, resultOffs);
  }

  lemma NothingHeld(text: string)
    ensures StillHeld(text, [], [], [], [])
  {
  }

  lemma AllStillHeld(text: string, ps: seq<Piece>, offs: seq<nat>, now: seq<Piece>, nowOffs: seq<nat>)
    requires Covers(text, ps, offs) && StillHeld(text, ps, offs, now, nowOffs)
    ensures Covers(text, now, nowOffs)
  {
    hide Held, IsSpace;
    assert forall k: nat :: k < |text| && !IsSpace(text[k]) ==> Held(ps, offs, k);
  }

  lemma SplitStep(root: Piece, parts: seq<Piece>, offs: seq<nat>, i: nat, result: seq<Piece>, resultOffs: seq<nat>,
                  subs: seq<Piece>, rel: seq<nat>)
    requires AllWithin(root, parts, offs) && i < |parts|
    requires AllWithin(root, result, resultOffs) && StillHeld(root.text, parts[..i], offs[..i], result, resultOffs)
    requires Tiles(parts[i], subs, rel) && (parts[i].text == "" ==> subs == [parts[i]])
    ensures AllWithin(root, result + subs, resultOffs + Shift(rel, offs[i]))
    ensures StillHeld(root.text, parts[..i + 1], offs[..i + 1], result + subs, resultOffs + Shift(rel, offs[i]))
  {
    hide Within, IsSpace, Held, Covers;
    var p, off := parts[i], offs[i];
    if p.text != "" {
      Refine(root, p, off, subs, rel);
    }
    assert parts[..i + 1] == parts[..i] + [p] && offs[..i + 1] == offs[..i] + [off];
    forall k: nat | k < |root.text| && !IsSpace(root.text[k]) && Held(parts[..i + 1], offs[..i + 1], k)
      ensures Held(result + subs, resultOffs + Shift(rel, off), k)
    {
      HeldSnoc(parts[..i], offs[..i], p, off, k);
      HeldConcat(result, resultOffs, subs, Shift(rel, off), k);
    }
  }

  // ---------------------------------------------------------------------
  // Sections
  // ---------------------------------------------------------------------

  function LineCount(s: string): nat { if s == "" then 0 else Newlines(s) + 1 }

  function PieceOf(s: Section): Piece { Piece(s.text, s.startLine) }

  function PiecesOf(ss: seq<Section>): (r: seq<Piece>) {
    seq(|ss|, i requires 0 <= i < |ss| => PieceOf(ss[i]))
  }

  // The section ends on the line its last rune lies on.
  predicate EndsRight(root: Piece, s: Section, off: nat) {
    off + |s.text| <= |root.text| && s.endLine == root.startLine + Newlines(root.text[..off + |s.text|])
  }

  // Non-empty sections that lie in the root on exactly their lines, and cover it.
  ghost predicate Sectioned(root: Piece, ss: seq<Section>, offs: seq<nat>) {
    && |offs| == |ss|
    && (forall i :: 0 <= i < |ss| ==> ss[i].text != "" && Within(root, PieceOf(ss[i]), offs[i]) && EndsRight(root, ss[i], offs[i]))
    && Covers(root.text, PiecesOf(ss), offs)
  }

  predicate BoundedSections(ss: seq<Section>, max: int) { forall i :: 0 <= i < |ss| ==> |ss[i].text| <= max }

  lemma EndLine(root: Piece, s: Section, off: nat)
    requires Within(root, PieceOf(s), off) && s.text != "" && s.endLine == s.startLine + LineCount(s.text) - 1
    ensures EndsRight(root, s, off)
  {
    assert root.text[..off + |s.text|] == root.text[..off] + s.text;
    NewlinesConcat(root.text[..off], s.text);
  }

  // The pieces that hold text.
  function Filled(ps: seq<Piece>): seq<Piece> {
    if ps == [] then []
    else
      var p := ps[|ps| - 1];
      Filled(ps[..|ps| - 1]) + if p.text == "" then [] else [p]
  }

  method PiecesToSections(parts: seq<Piece>, ghost root: Piece, ghost offs: seq<nat>, ghost max: int)
    returns (sections: seq<Section>, ghost sectionOffs: seq<nat>)
    requires Tiles(root, parts, offs) && Bounded(parts, max)
    ensures Sectioned(root, sections, sectionOffs) && BoundedSections(sections, max)
    ensures PiecesOf(sections) == Filled(parts)
  {
    hide Within, IsSpace, Held, EndsRight, Newlines;
    sections, sectionOffs := [], [];
    NothingHeld(root.text);
    assert PiecesOf([]) == [];
    for i := 0 to |parts|
      invariant |sectionOffs| == |sections| && BoundedSections(sections, max)
      invariant forall j :: 0 <= j < |sections| ==>
        sections[j].text != "" && Within(root, PieceOf(sections[j]), sectionOffs[j]) && EndsRight(root, sections[j], sectionOffs[j])
      invariant StillHeld(root.text, parts[..i], offs[..i], PiecesOf(sections), sectionOffs)
      invariant PiecesOf(sections) == Filled(parts[..i])
    {
      var p := parts[i];
      assert parts[..i + 1][..i] == parts[..i];
      KeepStep(root.text, parts, offs, i, PiecesOf(sections), sectionOffs);
      if p.text == "" {
        continue;
      }
      var lc := LineCount(p.text);
      var s := Section(p.text, p.startLine, p.startLine + lc - 1);
      EndLine(root, s, offs[i]);
      assert PiecesOf(sections + [s]) == PiecesOf(sections) + [p];
      sections := sections + [s];
      sectionOffs := sectionOffs + [offs[i]];
    }
    assert parts[..|parts|] == parts && offs[..|offs|] == offs;
    AllStillHeld(root.text, parts, offs, PiecesOf(sections), sectionOffs);
  }

  // Keeping a piece keeps what it covers; dropping a blank one loses nothing.
  lemma KeepStep(text: string, ps: seq<Piece>, offs: seq<nat>, i: nat, now: seq<Piece>, nowOffs: seq<nat>)
    requires |offs| == |ps| && i < |ps| && |nowOffs| == |now|
    requires StillHeld(text, ps[..i], offs[..i], now, nowOffs)
    ensures StillHeld(text, ps[..i + 1], offs[..i + 1], now + [ps[i]], nowOffs + [offs[i]])
    ensures (forall k: nat :: k < |text| && offs[i] <= k < offs[i] + |ps[i].text| ==> IsSpace(text[k])) ==>
              StillHeld(text, ps[..i + 1], offs[..i + 1], now, nowOffs)
  {
    hide Held, IsSpace;
    assert ps[..i + 1] == ps[..i] + [ps[i]] && offs[..i + 1] == offs[..i] + [offs[i]];
    forall k: nat | k < |text| && !IsSpace(text[k]) && Held(ps[..i + 1], offs[..i + 1], k)
      ensures Held(now + [ps[i]], nowOffs + [offs[i]], k)
      ensures Held(now, nowOffs, k) || offs[i] <= k < offs[i] + |ps[i].text|
    {
      HeldSnoc(ps[..i], offs[..i], ps[i], offs[i], k);
      HeldSnoc(now, nowOffs, ps[i], offs[i], k);
    }
  }

  // ---------------------------------------------------------------------
  // Lines that start a section
  // ---------------------------------------------------------------------

  predicate IsWs(c: char) { c == '\t' || c == '\n' || c as int == 12 || c == '\r' || c == ' ' }

  function SkipWs(s: string, i: nat): (j: nat)
    requires i <= |s|
    ensures i <= j <= |s| && (forall k :: i <= k < j ==> IsWs(s[k])) && (j < |s| ==> !IsWs(s[j]))
    decreases |s| - i
  {
    if i < |s| && IsWs(s[i]) then SkipWs(s, i + 1) else i
  }

  function SkipToQuote(s: string, i: nat): (j: nat)
    requires i <= |s|
    ensures i <= j <= |s| && (forall k :: i <= k < j ==> s[k] != '"') && (j < |s| ==> s[j] == '"')
    decreases |s| - i
  {
    if i < |s| && s[i] != '"' then SkipToQuote(s, i + 1) else i
  }

  predicate IsWordStart(c: char) { 'a' <= c <= 'z' || 'A' <= c <= 'Z' || c == '_' }

  predicate IsWord(c: char) { IsWordStart(c) || '0' <= c <= '9' || c == '-' }

  function SkipWord(s: string, i: nat): (j: nat)
    requires i <= |s|
    ensures i <= j <= |s| && (forall k :: i <= k < j ==> IsWord(s[k])) && (j < |s| ==> !IsWord(s[j]))
    decreases |s| - i
  {
    if i < |s| && IsWord(s[i]) then SkipWord(s, i + 1) else i
  }

  predicate ColonAfterWs(s: string, i: nat)
    requires i <= |s|
  {
    var k := SkipWs(s, i);
    k < |s| && s[k] == ':'
  }

  predicate JsonKey(line: string) {
    var i := SkipWs(line, 0);
    && 0 < i < |line| && line[i] == '"'
    && var j := SkipToQuote(line, i + 1);
       i + 1 < j < |line| && ColonAfterWs(line, j + 1)
  }

  predicate YamlKey(line: string) {
    line != "" && IsWordStart(line[0]) && ColonAfterWs(line, SkipWord(line, 1))
  }

  predicate GenericKey(line: string) {
    var trimmed := TrimSpace(line);
    line != "" && line[0] != ' ' && line[0] != '\t' && trimmed != "" && trimmed[0] != '#' && trimmed[0] != ';'
  }

  predicate IsH2(line: string) { |line| >= 3 && line[..3] == "## " }

  predicate AllWs(s: string) { forall k :: 0 <= k < |s| ==> IsWs(s[k]) }

  predicate AllWord(s: string) { forall k :: 0 <= k < |s| ==> IsWord(s[k]) }

  predicate AllSpace(s: string) { forall k :: 0 <= k < |s| ==> IsSpace(s[k]) }

  // ^\s+"([^"]+)"\s*:
  ghost predicate JsonKeyLine(line: string) {
    exists indent, name, gap, rest :: line == indent + "\"" + name + "\"" + gap + ":" + rest
      && indent != "" && AllWs(indent) && name != "" && Lacks(name, '"') && AllWs(gap)
  }

  // ^[a-zA-Z_][a-zA-Z0-9_\-]*\s*:
  ghost predicate YamlKeyLine(line: string) {
    exists name, gap, rest :: line == name + gap + ":" + rest
      && name != "" && IsWordStart(name[0]) && AllWord(name) && AllWs(gap)
  }

  // No indentation by blank or tab, and the first rune that is not white space opens no comment.
  ghost predicate GenericKeyLine(line: string) {
    exists space, c, rest :: line == space + [c] + rest
      && AllSpace(space) && (space != "" ==> space[0] !in " \t") && !IsSpace(c) && c !in "#;"
  }

  // A skip ends at the first character of another kind.
  lemma SkipWsTo(s: string, i: nat, j: nat)
    requires i <= j < |s| && AllWs(s[i..j]) && !IsWs(s[j])
    ensures SkipWs(s, i) == j
  {
    forall k | i <= k < j ensures IsWs(s[k]) { assert s[k] == s[i..j][k - i]; }
  }

  lemma SkipToQuoteTo(s: string, i: nat, j: nat)
    requires i <= j < |s| && Lacks(s[i..j], '"') && s[j] == '"'
    ensures SkipToQuote(s, i) == j
  {
    forall k | i <= k < j ensures s[k] != '"' { assert s[k] == s[i..j][k - i]; }
  }

  lemma SkipWordTo(s: string, i: nat, j: nat)
    requires i <= j < |s| && AllWord(s[i..j]) && !IsWord(s[j])
    ensures SkipWord(s, i) == j
  {
    forall k | i <= k < j ensures IsWord(s[k]) { assert s[k] == s[i..j][k - i]; }
  }

  // The lines that start a section, by their shape.
  lemma JsonKeyShape(line: string)
    ensures JsonKey(line) <==> JsonKeyLine(line)
  {
    if JsonKey(line) {
      var i := SkipWs(line, 0);
      var j := SkipToQuote(line, i + 1);
      var k := SkipWs(line, j + 1);
      JsonKeyParts(line, i, j, k);
    }
    if JsonKeyLine(line) {
      var indent, name, gap, rest :| line == indent + "\"" + name + "\"" + gap + ":" + rest
        && indent != "" && AllWs(indent) && name != "" && Lacks(name, '"') && AllWs(gap);
      JsonKeyMade(indent, name, gap, rest);
    }
  }

  lemma JsonKeyParts(line: string, i: nat, j: nat, k: nat)
    requires 0 < i && i + 1 < j && j + 1 <= k < |line| && line[i] == '"' && line[j] == '"' && line[k] == ':'
    requires AllWs(line[..i]) && Lacks(line[i + 1..j], '"') && AllWs(line[j + 1..k])
    ensures JsonKeyLine(line)
  {
    assert line == line[..i] + "\"" + line[i + 1..j] + "\"" + line[j + 1..k] + ":" + line[k + 1..];
  }

  lemma JsonKeyMade(indent: string, name: string, gap: string, rest: string)
    requires indent != "" && AllWs(indent) && name != "" && Lacks(name, '"') && AllWs(gap)
    ensures JsonKey(indent + "\"" + name + "\"" + gap + ":" + rest)
  {
    var line := indent + "\"" + name + "\"" + gap + ":" + rest;
    var i := |indent|;
    var j := i + 1 + |name|;
    var k := j + 1 + |gap|;
    assert line[0..i] == indent && line[i + 1..j] == name && line[j + 1..k] == gap;
    assert line[i] == '"' && line[j] == '"' && line[k] == ':';
    SkipWsTo(line, 0, i);
    SkipToQuoteTo(line, i + 1, j);
    SkipWsTo(line, j + 1, k);
  }

  lemma YamlKeyShape(line: string)
    ensures YamlKey(line) <==> YamlKeyLine(line)
  {
    if YamlKey(line) {
      var i := SkipWord(line, 1);
      var k := SkipWs(line, i);
      assert line == line[..i] + line[i..k] + ":" + line[k + 1..];
      assert AllWord(line[..i]) && AllWs(line[i..k]) && line[..i][0] == line[0];
    }
    if YamlKeyLine(line) {
      var name, gap, rest :| line == name + gap + ":" + rest
        && name != "" && IsWordStart(name[0]) && AllWord(name) && AllWs(gap);
      YamlKeyMade(name, gap, rest);
    }
  }

  lemma YamlKeyMade(name: string, gap: string, rest: string)
    requires name != "" && IsWordStart(name[0]) && AllWord(name) && AllWs(gap)
    ensures YamlKey(name + gap + ":" + rest)
  {
    var line := name + gap + ":" + rest;
    var i := |name|;
    var k := i + |gap|;
    assert line[1..i] == name[1..] && line[i..k] == gap && line[k] == ':';
    assert line[i] == if gap == "" then ':' else gap[0];
    SkipWordTo(line, 1, i);
    SkipWsTo(line, i, k);
  }

  lemma GenericKeyShape(line: string)
    ensures GenericKey(line) <==> GenericKeyLine(line)
  {
    hide IsSpace, TrimLeft, TrimRight;
    var core := TrimLeft(line);
    TrimLeftBlank(line);
    if core != "" {
      TrimRightKeeps(core);
    } else {
      TrimRightBlank(core);
      assert TrimRight("") == "" by { TrimRightNothing(); }
    }
    if GenericKey(line) {
      var space := SpaceBefore(line);
      assert line == space + [core[0]] + core[1..];
    }
    if GenericKeyLine(line) {
      var space, c, rest :| line == space + [c] + rest
        && AllSpace(space) && (space != "" ==> space[0] !in " \t") && !IsSpace(c) && c !in "#;";
      TrimLeftSkips(space, [c] + rest);
      assert line == space + ([c] + rest);
      BlanksAreSpace();
      assert line[0] == if space == "" then c else space[0];
    }
  }

  lemma BlanksAreSpace()
    ensures IsSpace(' ') && IsSpace('\t')
  {
  }

  lemma TrimRightNothing()
    ensures TrimRight("") == ""
  {
  }

  // The white space that TrimLeft takes away.
  lemma {:induction false} SpaceBefore(line: string) returns (space: string)
    ensures line == space + TrimLeft(line) && AllSpace(space)
  {
    hide IsSpace;
    space := "";
    if line != "" && IsSpace(line[0]) {
      var inner := SpaceBefore(line[1..]);
      space := [line[0]] + inner;
      assert line == [line[0]] + line[1..];
    }
  }

  lemma {:induction false} TrimLeftSkips(space: string, s: string)
    requires AllSpace(space) && s != "" && !IsSpace(s[0])
    ensures TrimLeft(space + s) == s
  {
    hide IsSpace;
    if space == "" {
      assert space + s == s;
    } else {
      assert (space + s)[1..] == space[1..] + s;
      TrimLeftSkips(space[1..], s);
    }
  }

  lemma {:induction false} TrimRightKeeps(s: string)
    requires s != "" && !IsSpace(s[0])
    ensures TrimRight(s) != "" && TrimRight(s)[0] == s[0]
  {
    hide IsSpace;
    if IsSpace(s[|s| - 1]) {
      TrimRightKeeps(s[..|s| - 1]);
    }
  }

  // A second-level heading.
  lemma HeadingShape(line: string)
    ensures IsH2(line) <==> exists rest :: line == "## " + rest
  {
    if IsH2(line) {
      assert line == "## " + line[3..];
    }
  }

  datatype Ext = Json | Yaml | OtherConfig

  predicate Starts(ext: Ext, i: nat, line: string) {
    match ext
    case Json => JsonKey(line)
    case Yaml => i > 0 && YamlKey(line)
    case OtherConfig => i > 0 && GenericKey(line)
  }

  function StartsOf(ext: Ext): (nat, string) -> bool { (i: nat, line: string) => Starts(ext, i, line) }

  lemma StartsNonEmpty(ext: Ext, i: nat, line: string)
    requires Starts(ext, i, line)
    ensures line != ""
  {
  }

  // ---------------------------------------------------------------------
  // Config files
  // ---------------------------------------------------------------------

  // The first line is empty and the second starts a section.
  predicate Shifted(text: string, ext: Ext) {
    var lines := Split(text, '\n');
    |lines| > 1 && lines[0] == "" && Starts(ext, 1, lines[1])
  }

  ghost predicate ConfigCut(text: string, ext: Ext, groups: seq<seq<string>>) {
    && Flatten(groups) == Split(text, '\n') && AllNonEmpty(groups) && groups != []
    && KeyCuts(groups, StartsOf(ext))
  }

  lemma FlattenFirst(groups: seq<seq<string>>)
    requires groups != []
    ensures Flatten(groups[..0]) == [] && Flatten(groups[..1]) == groups[0]
    ensures exists rest :: Flatten(groups) == groups[0] + rest
  {
    FlattenTake(groups, 0);
    assert groups[..1][..0] == [];
    var rest :| Flatten(groups) == Flatten(groups[..0]) + groups[0] + rest;
    assert Flatten(groups) == groups[0] + rest;
  }

  // The first part is the empty string exactly when the second line already starts a section.
  lemma FirstPart(text: string, ext: Ext, groups: seq<seq<string>>)
    requires ConfigCut(text, ext, groups)
    ensures Shifted(text, ext) <==> |groups| > 1 && groups[0] == [""]
  {
    hide Starts, Split, Flatten;
    var lines := Split(text, '\n');
    FlattenFirst(groups);
    var rest :| lines == groups[0] + rest;
    assert KeyGroup(groups[0], 0, StartsOf(ext), true);
    if |groups| > 1 {
      FlattenTake(groups, 1);
      var after :| lines == Flatten(groups[..1]) + groups[1] + after;
      assert KeyGroup(groups[1], |groups[0]|, StartsOf(ext), false);
      assert lines[|groups[0]|] == groups[1][0];
    } else {
      assert Flatten(groups) == groups[0] by { OneGroup(groups); }
    }
    assert lines[0] == groups[0][0];
    if |groups[0]| > 1 {
      assert lines[1] == groups[0][1];
      assert !Starts(ext, 1, lines[1]);
    }
  }

  lemma OneGroup(groups: seq<seq<string>>)
    requires |groups| == 1
    ensures Flatten(groups) == groups[0]
  {
    assert groups[..0] == [];
  }

  // Every later part begins with a key line, so none is empty.
  lemma LaterParts(text: string, ext: Ext, groups: seq<seq<string>>, i: nat)
    requires ConfigCut(text, ext, groups) && i < |groups|
    ensures Join(groups[i], '\n') == "" <==> groups[i] == [""]
    ensures i > 0 ==> groups[i] != [""]
  {
    hide Starts, Split, Flatten;
    assert KeyGroup(groups[i], |Flatten(groups[..i])|, StartsOf(ext), i == 0);
    if i > 0 {
      StartsNonEmpty(ext, |Flatten(groups[..i])|, groups[i][0]);
    }
  }

  lemma PartLines(groups: seq<seq<string>>, i: nat)
    requires i < |groups| && groups[i] != [] && AllLack(Flatten(groups), '\n')
    ensures Join(groups[i], '\n') != "" ==> LineCount(Join(groups[i], '\n')) == |groups[i]|
    ensures |Flatten(groups[..i + 1])| == |Flatten(groups[..i])| + |groups[i]|
  {
    hide Join, Newlines;
    FlattenTake(groups, i);
    var before := Flatten(groups[..i]);
    var rest :| Flatten(groups) == before + groups[i] + rest;
    forall j | 0 <= j < |groups[i]| ensures Lacks(groups[i][j], '\n') {
      assert groups[i][j] == Flatten(groups)[|before| + j];
    }
    JoinedNewlines(groups[i]);
    assert groups[..i + 1] == groups[..i] + [groups[i]];
    FlattenSnoc(groups[..i], groups[i]);
  }

  // Start lines add up the line counts, and the empty string counts no line.
  method PiecesFromContiguousLines(parts: seq<string>, ghost text: string, ghost ext: Ext,
      ghost groups: seq<seq<string>>)
    returns (pieces: seq<Piece>)
    requires ConfigCut(text, ext, groups)
    requires |parts| == |groups| > 1 && forall i :: 0 <= i < |parts| ==> parts[i] == Join(groups[i], '\n')
    ensures |pieces| == |parts| && forall i :: 0 <= i < |pieces| ==> pieces[i].text == parts[i]
    ensures forall i :: 0 <= i < |pieces| && pieces[i].text != "" ==>
      pieces[i].startLine == (if Shifted(text, ext) then 0 else 1) + |Flatten(groups[..i])|
  {
    hide Join, Flatten, Shifted, KeyCuts, LineCount;
    pieces := [];
    var currentLine := 1;
    FirstPart(text, ext, groups);
    SplitLacks(text, '\n');
    LaterParts(text, ext, groups, 0);
    FlattenFirst(groups);
    for i := 0 to |parts|
      invariant |pieces| == i && forall j :: 0 <= j < i ==> pieces[j].text == parts[j]
      invariant currentLine == (if i > 0 && Shifted(text, ext) then 0 else 1) + |Flatten(groups[..i])|
      invariant forall j :: 0 <= j < i && parts[j] != "" ==>
        pieces[j].startLine == (if Shifted(text, ext) then 0 else 1) + |Flatten(groups[..j])|
    {
      var p := parts[i];
      LaterParts(text, ext, groups, i);
      PartLines(groups, i);
      NoLines();
      pieces := pieces + [Piece(p, currentLine)];
      currentLine := currentLine + LineCount(p);
    }
  }

  lemma NoLines()
    ensures LineCount("") == 0
  {
  }

  lemma ConfigTiles(text: string, ext: Ext, groups: seq<seq<string>>, pieces: seq<Piece>, base: int)
    requires ConfigCut(text, ext, groups)
    requires |pieces| == |groups| && forall i :: 0 <= i < |pieces| ==> pieces[i].text == Join(groups[i], '\n')
    requires forall i :: 0 <= i < |pieces| && pieces[i].text != "" ==> pieces[i].startLine == base + |Flatten(groups[..i])|
    ensures Tiles(Piece(text, base), pieces, GroupOffsets(groups))
  {
    hide Flatten, Join, GroupOffset, Within, KeyCuts, Covers;
    forall i | 0 <= i < |pieces| && pieces[i].text != "" ensures Within(Piece(text, base), pieces[i], GroupOffsets(groups)[i]) {
      GroupPlaced(Piece(text, base), groups, i);
    }
    GroupsReach(text, groups, pieces);
  }

  // A config file is read from line 1, but from line 0 when it is split after an empty first part.
  function ConfigRoot(text: string, ext: Ext, cfg: ChunkerConfig): Piece {
    Piece(text, if |text| > cfg.maxChunkSize && Shifted(text, ext) then 0 else 1)
  }

  // The joined groups, as pieces.
  predicate Joined(groups: seq<seq<string>>, ps: seq<Piece>) {
    |ps| == |groups| && forall i :: 0 <= i < |ps| ==> ps[i].text == Join(groups[i], '\n')
  }

  // A small file is one section. A larger one is cut in front of its top-level keys, oversized parts in windows; in
  // windows alone when there is nothing to cut at.
  ghost predicate ConfigSections(text: string, ext: Ext, cfg: ChunkerConfig, ps: seq<Piece>) {
    if |text| <= cfg.maxChunkSize then ps == Filled([Piece(text, 1)])
    else exists groups, parts, result ::
           && ConfigCut(text, ext, groups) && Joined(groups, parts) && ps == Filled(result)
           && if |groups| <= 1 then CutInWindows(Piece(text, 1), cfg, result) else CutOversized(parts, cfg, FixedSize, result)
  }

  method ChunkConfig(text: string, ext: Ext, cfg: ChunkerConfig) returns (sections: seq<Section>, ghost offs: seq<nat>)
    requires cfg.Sound()
    ensures Sectioned(ConfigRoot(text, ext, cfg), sections, offs) && BoundedSections(sections, cfg.maxChunkSize)
    ensures ConfigSections(text, ext, cfg, PiecesOf(sections))
  {
    hide Tiles, Sectioned, Shifted, Flatten, Join, KeyCuts, Windows, CutOversized, CutInWindows, Filled, PiecesOf, Within;
    ghost var root := ConfigRoot(text, ext, cfg);
    if |text| <= cfg.maxChunkSize {
      OneTile(Piece(text, 1));
      sections, offs := PiecesToSections([Piece(text, 1)], root, [0], cfg.maxChunkSize);
      return;
    }
    ghost var groups;
    var parts;
    parts, groups := CutAtKeys(text, StartsOf(ext));
    FirstPart(text, ext, groups);
    if |parts| <= 1 {
      var windows;
      windows, offs := FixedSizePieces(Piece(text, 1), cfg);
      WindowsCut(Piece(text, 1), cfg, windows, offs);
      assert Joined(groups, [Piece(parts[0], 1)]);
      sections, offs := PiecesToSections(windows, root, offs, cfg.maxChunkSize);
      return;
    }
    var pieces := PiecesFromContiguousLines(parts, text, ext, groups);
    ConfigTiles(text, ext, groups, pieces, root.startLine);
    var result;
    result, offs := SplitOversized(pieces, cfg, FixedSize, root, GroupOffsets(groups));
    sections, offs := PiecesToSections(result, root, offs, cfg.maxChunkSize);
  }

  // ---------------------------------------------------------------------
  // Code, Markdown and other files
  // ---------------------------------------------------------------------

  // Cut behind blank lines; what is oversized, in windows.
  ghost predicate CodeCut(text: string, cfg: ChunkerConfig, ps: seq<Piece>) {
    exists parts, result ::
      CutAtBlanks(Piece(text, 1), parts) && CutOversized(parts, cfg, FixedSize, result) && ps == Filled(result)
  }

  method ChunkCode(text: string, cfg: ChunkerConfig) returns (sections: seq<Section>, ghost offs: seq<nat>)
    requires cfg.Sound()
    ensures Sectioned(Piece(text, 1), sections, offs) && BoundedSections(sections, cfg.maxChunkSize)
    ensures CodeCut(text, cfg, PiecesOf(sections))
  {
    hide Tiles, Sectioned, GroupOffsets, BlankCuts, Spells, CutOversized, Filled, PiecesOf, Flatten, Split, AllNonEmpty, Bounded;
    ghost var root := Piece(text, 1);
    var parts;
    ghost var groups;
    parts, groups := SplitBySingleBlanks(Piece(text, 1));
    assert CutAtBlanks(root, parts);
    parts, offs := SplitOversized(parts, cfg, FixedSize, root, GroupOffsets(groups));
    sections, offs := PiecesToSections(parts, root, offs, cfg.maxChunkSize);
  }

  function Headings(): (nat, string) -> bool { (i: nat, line: string) => IsH2(line) }

  // The pieces of a text between its second-level headings.
  ghost predicate CutAtHeadings(text: string, ps: seq<Piece>) {
    exists groups :: Flatten(groups) == Split(text, '\n') && AllNonEmpty(groups) && KeyCuts(groups, Headings()) && Spells(ps, groups, 1)
  }

  // Cut in front of headings; what is oversized, behind blank lines; what still is, in windows.
  ghost predicate MarkdownCut(text: string, cfg: ChunkerConfig, ps: seq<Piece>) {
    exists parts, blocks, result ::
      && CutAtHeadings(text, parts) && CutOversized(parts, cfg, BlankLines, blocks)
      && CutOversized(blocks, cfg, FixedSize, result) && ps == Filled(result)
  }

  method ChunkMarkdown(text: string, cfg: ChunkerConfig) returns (sections: seq<Section>, ghost offs: seq<nat>)
    requires cfg.Sound()
    ensures Sectioned(Piece(text, 1), sections, offs) && BoundedSections(sections, cfg.maxChunkSize)
    ensures MarkdownCut(text, cfg, PiecesOf(sections))
  {
    var parts;
    ghost var groups;
    parts, groups := SplitAtHeadings(text);
    hide Tiles, Sectioned, GroupOffsets, KeyCuts, Spells, CutOversized, Filled, PiecesOf, Flatten, Split, AllNonEmpty, Bounded;
    ghost var root := Piece(text, 1);
    assert CutAtHeadings(text, parts);
    parts, offs := SplitOversized(parts, cfg, BlankLines, root, GroupOffsets(groups));
    parts, offs := SplitOversized(parts, cfg, FixedSize, root, offs);
    sections, offs := PiecesToSections(parts, root, offs, cfg.maxChunkSize);
  }

  // The loop of the Markdown splitter.
  method SplitAtHeadings(text: string) returns (parts: seq<Piece>, ghost groups: seq<seq<string>>)
    ensures Flatten(groups) == Split(text, '\n') && AllNonEmpty(groups) && KeyCuts(groups, Headings())
    ensures Spells(parts, groups, 1) && Tiles(Piece(text, 1), parts, GroupOffsets(groups))
  {
    hide Tiles, GroupOffsets, Split, Join, Flatten, Spells, IsH2, KeyCuts;
    var lines := Split(text, '\n');
    var current: seq<string> := [];
    var startLine := 1;
    parts, groups := [], [];
    FlattenNone();
    NothingSpelled();
    NoKeyCuts(Headings());
    for i := 0 to |lines|
      invariant Flatten(groups) + current == lines[..i]
      invariant AllNonEmpty(groups) && Spells(parts, groups, 1) && startLine == 1 + |Flatten(groups)|
      invariant KeyCuts(groups, Headings()) && KeyGroup(current, |Flatten(groups)|, Headings(), groups == [])
      invariant current == [] ==> i == 0
    {
      var line := lines[i];
      if IsH2(line) && |current| > 0 {
        SpellsSnoc(parts, groups, 1, current);
        FlattenSnoc(groups, current);
        KeyCutsSnoc(groups, Headings(), current);
        parts := parts + [Piece(Join(current, '\n'), startLine)];
        startLine := startLine + |current|;
        groups := groups + [current];
        current := [];
      }
      current := current + [line];
    }
    assert lines[..|lines|] == lines;
    if |current| > 0 {
      SpellsSnoc(parts, groups, 1, current);
      FlattenSnoc(groups, current);
      KeyCutsSnoc(groups, Headings(), current);
      parts := parts + [Piece(Join(current, '\n'), startLine)];
      groups := groups + [current];
    }
    GroupsTile(Piece(text, 1), groups, parts);
  }

  lemma NothingSpelled()
    ensures Spells([], [], 1)
  {
  }

  lemma WindowsCut(p: Piece, cfg: ChunkerConfig, ps: seq<Piece>, offs: seq<nat>)
    requires Tiles(p, ps, offs) && Windows(p.text, cfg, ps, offs)
    ensures CutInWindows(p, cfg, ps)
  {
    hide Windows, Covers;
  }

  ghost predicate WindowCut(text: string, cfg: ChunkerConfig, ps: seq<Piece>) {
    exists result :: CutInWindows(Piece(text, 1), cfg, result) && ps == Filled(result)
  }

  method FixedSizeSplit(text: string, cfg: ChunkerConfig) returns (sections: seq<Section>, ghost offs: seq<nat>)
    requires cfg.Sound()
    ensures Sectioned(Piece(text, 1), sections, offs) && BoundedSections(sections, cfg.maxChunkSize)
    ensures WindowCut(text, cfg, PiecesOf(sections))
  {
    hide Tiles, Sectioned, Windows, AllWithin, Bounded, Filled, PiecesOf;
    var parts;
    parts, offs := FixedSizePieces(Piece(text, 1), cfg);
    WindowsCut(Piece(text, 1), cfg, parts, offs);
    sections, offs := PiecesToSections(parts, Piece(text, 1), offs, cfg.maxChunkSize);
  }

  // ---------------------------------------------------------------------
  // A whole file
  // ---------------------------------------------------------------------

  datatype FileType = Code | Markdown | Config(ext: Ext) | Other

  // The length of a rune in UTF-8.
  function RuneLen(c: char): nat {
    if c as int < 0x80 then 1 else if c as int < 0x800 then 2 else if c as int < 0x10000 then 3 else 4
  }

  function ByteLen(s: string): nat {
    if s == "" then 0 else ByteLen(s[..|s| - 1]) + RuneLen(s[|s| - 1])
  }

  // A null byte among the first 512 bytes.
  predicate Binary(text: string) {
    exists k :: 0 <= k < |text| && text[k] as int == 0 && ByteLen(text[..k]) < 512
  }

  lemma {:induction false} ByteLenGrows(text: string, i: nat, k: nat)
    requires i <= k <= |text|
    ensures ByteLen(text[..i]) <= ByteLen(text[..k])
  {
    if i < k {
      assert text[..k][..k - 1] == text[..k - 1];
      ByteLenGrows(text, i, k - 1);
    }
  }

  method IsBinary(text: string) returns (binary: bool)
    ensures binary == Binary(text)
  {
    var i, bytes := 0, 0;
    while i < |text| && bytes < 512
      invariant 0 <= i <= |text| && bytes == ByteLen(text[..i])
      invariant forall k :: 0 <= k < i ==> text[k] as int != 0
    {
      if text[i] as int == 0 {
        return true;
      }
      assert text[..i + 1][..i] == text[..i];
      bytes := bytes + RuneLen(text[i]);
      i := i + 1;
    }
    forall k | 0 <= k < |text| && text[k] as int == 0 ensures ByteLen(text[..k]) >= 512 {
      ByteLenGrows(text, i, k);
    }
    return false;
  }

  // The text and the number of its first line.
  function RootOf(text: string, kind: FileType, cfg: ChunkerConfig): Piece {
    if kind.Config? then ConfigRoot(text, kind.ext, cfg) else Piece(text, 1)
  }

  lemma {:induction false} TrimmedBlank(s: string)
    ensures TrimSpace(s) == "" <==> forall k :: 0 <= k < |s| ==> IsSpace(s[k])
  {
    TrimLeftBlank(s);
    TrimRightBlank(TrimLeft(s));
  }

  lemma {:induction false} TrimLeftBlank(s: string)
    ensures TrimLeft(s) == "" <==> forall k :: 0 <= k < |s| ==> IsSpace(s[k])
    ensures TrimLeft(s) != "" ==> !IsSpace(TrimLeft(s)[0])
  {
    hide IsSpace;
    if s != "" && IsSpace(s[0]) {
      TrimLeftBlank(s[1..]);
      assert forall k :: 0 < k < |s| ==> s[k] == s[1..][k - 1];
    }
  }

  lemma {:induction false} TrimRightBlank(s: string)
    ensures TrimRight(s) == "" ==> forall k :: 0 <= k < |s| ==> IsSpace(s[k])
    ensures s == "" ==> TrimRight(s) == ""
  {
    hide IsSpace;
    if s != "" && IsSpace(s[|s| - 1]) {
      TrimRightBlank(s[..|s| - 1]);
      assert forall k :: 0 <= k < |s| - 1 ==> s[k] == s[..|s| - 1][k];
    }
  }

  // How each kind of file is cut.
  ghost predicate FileCut(text: string, kind: FileType, cfg: ChunkerConfig, ps: seq<Piece>) {
    match kind
    case Code => CodeCut(text, cfg, ps)
    case Markdown => MarkdownCut(text, cfg, ps)
    case Config(ext) => ConfigSections(text, ext, cfg, ps)
    case Other => WindowCut(text, cfg, ps)
  }

  // The pieces that are not blank.
  function Shown(ps: seq<Piece>): seq<Piece> {
    if ps == [] then []
    else
      var p := ps[|ps| - 1];
      Shown(ps[..|ps| - 1]) + if Blank(p.text) then [] else [p]
  }

  // The pieces the kind of file asks for, without the blank ones.
  ghost predicate FileChunks(text: string, kind: FileType, cfg: ChunkerConfig, ps: seq<Piece>) {
    exists all :: FileCut(text, kind, cfg, all) && ps == Shown(all)
  }

  // Every chunk is a stretch of the text on exactly its lines, within the size limit and not blank,
  // and every rune that is not white space is in some chunk.
  method ChunkFile(text: string, kind: FileType, config: ChunkerConfig)
      returns (chunks: seq<Section>, ghost offs: seq<nat>)
    ensures text == "" || Binary(text) ==> chunks == []
    ensures text != "" && !Binary(text) ==> FileChunks(text, kind, config.WithDefaults(), PiecesOf(chunks))
    ensures !Binary(text) ==> Sectioned(RootOf(text, kind, config.WithDefaults()), chunks, offs)
    ensures BoundedSections(chunks, config.WithDefaults().maxChunkSize)
    ensures forall i :: 0 <= i < |chunks| ==> !Blank(chunks[i].text)
  {
    hide Binary, IsSpace, Sectioned, Blank, CodeCut, MarkdownCut, ConfigSections, WindowCut, PiecesOf, Shown;
    var cfg := config.WithDefaults();
    chunks, offs := [], [];
    ghost var root := RootOf(text, kind, cfg);
    if text == "" {
      EmptySectioned(root);
      return;
    }
    var binary := IsBinary(text);
    if binary {
      return;
    }
    var sections;
    ghost var sectionOffs;
    match kind {
      case Code => sections, sectionOffs := ChunkCode(text, cfg);
      case Markdown => sections, sectionOffs := ChunkMarkdown(text, cfg);
      case Config(ext) => sections, sectionOffs := ChunkConfig(text, ext, cfg);
      case Other => sections, sectionOffs := FixedSizeSplit(text, cfg);
    }
    assert FileCut(text, kind, cfg, PiecesOf(sections));
    chunks, offs := DropBlank(root, sections, sectionOffs, cfg.maxChunkSize);
  }

  lemma EmptySectioned(root: Piece)
    requires root.text == ""
    ensures Sectioned(root, [], [])
  {
  }

  method DropBlank(ghost root: Piece, sections: seq<Section>, ghost sectionOffs: seq<nat>, ghost max: int)
    returns (chunks: seq<Section>, ghost offs: seq<nat>)
    requires Sectioned(root, sections, sectionOffs) && BoundedSections(sections, max)
    ensures Sectioned(root, chunks, offs) && BoundedSections(chunks, max)
    ensures forall i :: 0 <= i < |chunks| ==> !Blank(chunks[i].text)
    ensures PiecesOf(chunks) == Shown(PiecesOf(sections))
  {
    hide Within, IsSpace, Held, EndsRight, Newlines, Blank;
    chunks, offs := [], [];
    NothingHeld(root.text);
    assert PiecesOf([]) == [];
    ghost var ps := PiecesOf(sections);
    for i := 0 to |sections|
      invariant |offs| == |chunks| && BoundedSections(chunks, max)
      invariant forall j :: 0 <= j < |chunks| ==> !Blank(chunks[j].text)
      invariant forall j :: 0 <= j < |chunks| ==>
        chunks[j].text != "" && Within(root, PieceOf(chunks[j]), offs[j]) && EndsRight(root, chunks[j], offs[j])
      invariant StillHeld(root.text, ps[..i], sectionOffs[..i], PiecesOf(chunks), offs)
      invariant PiecesOf(chunks) == Shown(ps[..i])
    {
      var s := sections[i];
      assert ps[..i + 1][..i] == ps[..i];
      KeepStep(root.text, ps, sectionOffs, i, PiecesOf(chunks), offs);
      if Blank(s.text) {
        BlankStretch(root, PieceOf(s), sectionOffs[i]);
        continue;
      }
      assert PiecesOf(chunks + [s]) == PiecesOf(chunks) + [ps[i]];
      chunks := chunks + [s];
      offs := offs + [sectionOffs[i]];
    }
    assert ps[..|ps|] == ps && sectionOffs[..|sectionOffs|] == sectionOffs;
    AllStillHeld(root.text, ps, sectionOffs, PiecesOf(chunks), offs);
  }

  lemma BlankStretch(root: Piece, p: Piece, off: nat)
    requires Within(root, p, off) && Blank(p.text)
    ensures forall k: nat :: k < |root.text| && off <= k < off + |p.text| ==> IsSpace(root.text[k])
  {
    hide IsSpace;
    TrimmedBlank(p.text);
    WithinMeans(root, p, off);
    forall k: nat | off <= k < off + |p.text| ensures IsSpace(root.text[k]) { assert p.text[k - off] == root.text[k]; }
  }

  // The lines of a config file are right exactly when it is not split after an empty first part.
  lemma ConfigLinesIff(text: string, ext: Ext, cfg: ChunkerConfig, chunks: seq<Section>, offs: seq<nat>)
    requires Sectioned(ConfigRoot(text, ext, cfg), chunks, offs) && chunks != []
    ensures Sectioned(Piece(text, 1), chunks, offs) <==> !(|text| > cfg.maxChunkSize && Shifted(text, ext))
  {
    hide Shifted, Covers, Newlines;
    if Sectioned(Piece(text, 1), chunks, offs) {
      assert Within(Piece(text, 1), PieceOf(chunks[0]), offs[0]);
      assert Within(ConfigRoot(text, ext, cfg), PieceOf(chunks[0]), offs[0]);
    }
  }

  // A config file whose second line is already a key: the key's chunk claims line 1 instead of 2.
  lemma ShiftedExample()
    ensures Shifted("\na: 1", Yaml) && ConfigRoot("\na: 1", Yaml, ChunkerConfig(2, 0)).startLine == 0
    ensures Within(Piece("\na: 1", 0), Piece("a:", 1), 1) && !Within(Piece("\na: 1", 1), Piece("a:", 1), 1)
  {
    var text := "\na: 1";
    assert text[1..] == "a: 1";
    SplitConcat("", "a: 1", '\n');
    assert text == "" + ['\n'] + "a: 1";
    SplitPlain("", '\n');
    SplitPlain("a: 1", '\n');
    assert Split(text, '\n') == ["", "a: 1"];
    assert SkipWord("a: 1", 1) == 1 && SkipWs("a: 1", 1) == 1;
    assert text[..1][..0] == "";
    assert Newlines(text[..1]) == 1;
  }
}
