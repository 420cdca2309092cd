// ExtractJSON of llm/jsonutil.go. json.Valid is a parameter.
module JsonExtract {
  import opened Prelude
  import opened JsonText
  import opened Strings

  const FENCE := "```"

  // strings.Index: the first occurrence.
  function Index(s: string, p: string): (r: Option<nat>)
    ensures r.Some? ==> OccursAt(s, p, r.value) && forall i: nat :: i < r.value ==> !OccursAt(s, p, i)
    ensures r.None? ==> !Contains(s, p)
  {
    IndexFrom(s, p, 0)
  }

  function IndexFrom(s: string, p: string, k: nat): (r: Option<nat>)
    requires forall i: nat :: i < k ==> !OccursAt(s, p, i)
    ensures r.Some? ==> OccursAt(s, p, r.value) && forall i: nat :: i < r.value ==> !OccursAt(s, p, i)
    ensures r.None? ==> !Contains(s, p)
    decreases |s| - k
  {
    if k + |p| > |s| then None
    else if OccursAt(s, p, k) then Some(k)
    else IndexFrom(s, p, k + 1)
  }

  // Consecutive backslashes ending just before position i.
  function Backslashes(s: string, i: nat): nat
    requires i <= |s|
  {
    if i > 0 && s[i - 1] == '\\' then 1 + Backslashes(s, i - 1) else 0
  }

  predicate Escaped(s: string, i: nat)
    requires i <= |s|
  {
    Backslashes(s, i) % 2 == 1
  }

  // The opening brace met when scanning left from position i, if any.
  function ScanBack(s: string, i: int, depth: int, inString: bool): (r: Option<nat>)
    requires -1 <= i < |s|
    ensures r.Some? ==> r.value <= i
    decreases i + 1
  {
    if i < 0 then None
    else if inString then ScanBack(s, i - 1, depth, s[i] != '"' || Escaped(s, i))
    else if s[i] == '"' then ScanBack(s, i - 1, depth, !Escaped(s, i))
    else if s[i] == '}' then ScanBack(s, i - 1, depth + 1, false)
    else if s[i] == '{' then if depth == 1 then Some(i) else ScanBack(s, i - 1, depth - 1, false)
    else ScanBack(s, i - 1, depth, false)
  }

  // The object that closes last among those json.Valid accepts, or the whole text.
  function ScanEnds(s: string, end: int, valid: string -> bool): string
    requires -1 <= end < |s|
    decreases end + 1
  {
    if end < 0 then s
    else if s[end] != '}' then ScanEnds(s, end - 1, valid)
    else
      match ScanBack(s, end, 0, false)
      case Some(i) => if valid(s[i..end + 1]) then s[i..end + 1] else ScanEnds(s, end - 1, valid)
      case None => ScanEnds(s, end - 1, valid)
  }

  // The text between the first fence, its language line and the next fence.
  function FencedBlock(s: string): Option<string> {
    match Index(s, FENCE)
    case None => None
    case Some(i) =>
      var rest := s[i + 3..];
      var body := match Index(rest, "\n") case Some(nl) => rest[nl + 1..] case None => rest;
      match Index(body, FENCE)
      case None => None
      case Some(j) => Some(TrimSpace(body[..j]))
  }

  // Positions in s: a fence at i and none before it; the body begins at a, behind the line of that fence, or
  // right behind the fence if no newline follows; the next fence, at j, ends it.
  ghost predicate Delimits(s: string, i: nat, a: nat, j: nat) {
    && i + 3 <= a <= j <= |s|
    && OccursAt(s, FENCE, i) && (forall k: nat :: k < i ==> !OccursAt(s, FENCE, k))
    && (if a == i + 3 then NoNewline(s[a..]) else s[a - 1] == '\n' && NoNewline(s[i + 3..a - 1]))
    && OccursAt(s, FENCE, j) && (forall k: nat :: a <= k < j ==> !OccursAt(s, FENCE, k))
  }

  predicate NoNewline(s: string) { forall k :: 0 <= k < |s| ==> s[k] != '\n' }

  lemma OccursInSuffix(s: string, a: nat, p: string, k: nat)
    requires a <= |s|
    ensures OccursAt(s[a..], p, k) <==> OccursAt(s, p, a + k)
  {
    if a + k + |p| <= |s| {
      assert s[a..][k..k + |p|] == s[a + k..a + k + |p|];
    }
  }

  // Where the body of a fenced block begins.
  function BodyStart(s: string, i: nat): nat
    requires i + 3 <= |s|
  {
    match Index(s[i + 3..], "\n") case Some(nl) => i + 3 + nl + 1 case None => i + 3
  }

  lemma BodyStartIs(s: string, i: nat, a: nat)
    requires i + 3 <= a <= |s|
    ensures BodyStart(s, i) <= |s|
    ensures a == BodyStart(s, i) <==> if a == i + 3 then NoNewline(s[a..]) else s[a - 1] == '\n' && NoNewline(s[i + 3..a - 1])
  {
    var rest := s[i + 3..];
    forall k: nat | k < |rest| ensures OccursAt(rest, "\n", k) <==> rest[k] == '\n' {
      assert rest[k..k + 1] == [rest[k]];
    }
    assert forall k :: i + 3 <= k < |s| ==> s[k] == rest[k - i - 3];
    assert forall k :: 0 <= k < a - i - 4 ==> s[i + 3..a - 1][k] == rest[k];
    match Index(rest, "\n")
    case Some(nl) =>
      assert rest[nl] == '\n';
      if a == i + 3 {
        assert s[a..][nl] == '\n';
      } else if a > i + 3 + nl + 1 {
        assert s[i + 3..a - 1][nl] == '\n';
      }
    case None =>
      assert forall k: nat :: k < |rest| ==> !OccursAt(rest, "\n", k);
  }

  // The block found is the trimmed text between the first fence's line and the next fence; none is found
  // exactly when there are no such places.
  lemma FencedBlockIs(s: string)
    ensures match FencedBlock(s)
            case Some(b) => exists i: nat, a: nat, j: nat :: Delimits(s, i, a, j) && b == TrimSpace(s[a..j])
            case None => forall i: nat, a: nat, j: nat :: !Delimits(s, i, a, j)
  {
    hide TrimLeft, TrimRight, IndexFrom, BodyStart, Delimits, OccursAt;
    if Index(s, FENCE).Some? {
      var i := Index(s, FENCE).value;
      assert i + 3 <= |s| by { FenceFits(s, i); }
      var a := BodyStart(s, i);
      BodyBehind(s, i);
      if Index(s[a..], FENCE).Some? {
        var j := Index(s[a..], FENCE).value;
        BlockDelimited(s, i, a, j);
        assert s[a..][..j] == s[a..a + j];
      } else {
        forall i2: nat, a2: nat, j2: nat ensures !Delimits(s, i2, a2, j2) {
          if Delimits(s, i2, a2, j2) {
            BodyFixed(s, i, i2, a2, j2);
          }
        }
      }
    } else {
      forall i2: nat, a2: nat, j2: nat ensures !Delimits(s, i2, a2, j2) {
        if Delimits(s, i2, a2, j2) {
          DelimitsFence(s, i2, a2, j2);
        }
      }
    }
  }

  lemma FenceFits(s: string, i: nat)
    requires OccursAt(s, FENCE, i)
    ensures i + 3 <= |s|
  {
  }

  lemma DelimitsFence(s: string, i: nat, a: nat, j: nat)
    requires Delimits(s, i, a, j)
    ensures Contains(s, FENCE)
  {
  }

  lemma BlockDelimited(s: string, i: nat, a: nat, j: nat)
    requires Index(s, FENCE) == Some(i) && i + 3 <= |s| && a == BodyStart(s, i) <= |s| && Index(s[a..], FENCE) == Some(j)
    ensures a + j <= |s| && Delimits(s, i, a, a + j)
  {
    hide TrimLeft, TrimRight, IndexFrom, NoNewline, BodyStart;
    BodyBehind(s, i);
    BodyStartIs(s, i, a);
    OccursInSuffix(s, a, FENCE, j);
    forall k: nat | a <= k < a + j ensures !OccursAt(s, FENCE, k) {
      OccursInSuffix(s, a, FENCE, k - a);
      assert !OccursAt(s[a..], FENCE, k - a);
    }
  }

  // The places of a block are determined: its body begins where the body begins.
  lemma BodyFixed(s: string, i: nat, i2: nat, a2: nat, j2: nat)
    requires Index(s, FENCE) == Some(i) && i + 3 <= |s| && Delimits(s, i2, a2, j2)
    ensures BodyStart(s, i) <= |s| && Contains(s[BodyStart(s, i)..], FENCE)
  {
    hide IndexFrom, NoNewline, BodyStart;
    assert i2 == i;
    BodyStartIs(s, i, a2);
    OccursInSuffix(s, a2, FENCE, j2 - a2);
  }

  // The body is a suffix of the text.
  lemma BodyBehind(s: string, i: nat)
    requires i + 3 <= |s|
    ensures i + 3 <= BodyStart(s, i) <= |s|
    ensures s[BodyStart(s, i)..] == match Index(s[i + 3..], "\n") case Some(nl) => s[i + 3..][nl + 1..] case None => s[i + 3..]
  {
  }

  function Extract(content: string, valid: string -> bool): string {
    var s := TrimSpace(content);
    var b := FencedBlock(s);
    if b.Some? && valid(b.value) then b.value else ScanEnds(s, |s| - 1, valid)
  }

  method CountEscapes(content: string, i: nat) returns (escaped: bool)
    requires i <= |content|
    ensures escaped == Escaped(content, i)
  {
    var escapeCount, j := 0, i - 1;
    while j >= 0 && content[j] == '\\'
      invariant -1 <= j < i && escapeCount == i - 1 - j
      invariant escapeCount + Backslashes(content, j + 1) == Backslashes(content, i)
    {
      escapeCount := escapeCount + 1;
      j := j - 1;
    }
    escaped := escapeCount % 2 == 1;
  }

  method MatchBrace(content: string, end: nat) returns (open: Option<nat>)
    requires end < |content|
    ensures open == ScanBack(content, end, 0, false)
  {
    var depth, inString, i := 0, false, end as int;
    while i >= 0
      invariant -1 <= i <= end
      invariant ScanBack(content, i, depth, inString) == ScanBack(content, end, 0, false)
      decreases i
    {
      var ch := content[i];
      if inString {
        if ch == '"' {
          var escaped := CountEscapes(content, i);
          if escaped {
            i := i - 1;
            continue;
          }
          inString := false;
        }
        i := i - 1;
        continue;
      }
      if ch == '"' {
        var escaped := CountEscapes(content, i);
        if !escaped {
          inString := true;
        }
        i := i - 1;
        continue;
      }
      if ch == '}' {
        depth := depth + 1;
      } else if ch == '{' {
        depth := depth - 1;
        if depth == 0 {
          return Some(i);
        }
      }
      i := i - 1;
    }
    open := None;
  }

  method FindFenced(content: string) returns (block: Option<string>)
    ensures block == FencedBlock(content)
    ensures match block
            case Some(b) => exists i: nat, a: nat, j: nat :: Delimits(content, i, a, j) && b == TrimSpace(content[a..j])
            case None => forall i: nat, a: nat, j: nat :: !Delimits(content, i, a, j)
  {
    hide TrimLeft, TrimRight, IndexFrom;
    FencedBlockIs(content);
    hide Delimits;
    var idx := Index(content, FENCE);
    if idx.None? {
      return None;
    }
    var after := content[idx.value + 3..];
    var nl := Index(after, "\n");
    if nl.Some? {
      after := after[nl.value + 1..];
    }
    var close := Index(after, FENCE);
    if close.None? {
      return None;
    }
    block := Some(TrimSpace(after[..close.value]));
  }

  method ExtractJSON(text: string, valid: string -> bool) returns (r: string)
    ensures r == Extract(text, valid)
  {
    hide TrimLeft, TrimRight, FencedBlock, ScanBack;
    var content := TrimSpace(text);
    var block := FindFenced(content);
    if block.Some? && valid(block.value) {
      return block.value;
    }
    var end := |content| - 1;
    while end >= 0
      invariant -1 <= end < |content|
      invariant ScanEnds(content, |content| - 1, valid) == ScanEnds(content, end, valid)
      decreases end
    {
      if content[end] != '}' {
        end := end - 1;
        continue;
      }
      var open := MatchBrace(content, end);
      if open.Some? {
        var candidate := content[open.value..end + 1];
        if valid(candidate) {
          return candidate;
        }
      }
      end := end - 1;
    }
    r := content;
  }

  // ---------------------------------------------------------------------
  // Backward scan = forward lexer
  // ---------------------------------------------------------------------

  // The forward lexer just after the k-th character of an object body.
  function At(body: string, k: nat): Lex
    requires k <= |body|
  {
    Run(Lex(Out, 1, 1, true), body[..k])
  }

  lemma AtStep(body: string, k: nat)
    requires k < |body|
    ensures At(body, k + 1) == JsonText.Step(At(body, k), body[k])
  {
    assert body[..k + 1][..k] == body[..k];
  }

  lemma AtOk(body: string, k: nat)
    requires k <= |body| && At(body, |body|).ok
    ensures At(body, k).ok && At(body, k).depth >= 1
  {
    assert body[..|body|] == body;
    OkPrefix(Lex(Out, 1, 1, true), body, k);
    DepthAtLeastFloor(Lex(Out, 1, 1, true), body[..k]);
  }

  // body sits in content right after an opening brace at off.
  ghost predicate Sits(content: string, off: nat, body: string) {
    && off + 1 + |body| < |content|
    && content[off] == '{'
    && forall k :: 0 <= k < |body| ==> content[off + 1 + k] == body[k]
  }

  // The parity of the backslashes to the left is odd exactly where the forward lexer has an
  // escape pending.
  lemma {:induction false} ParityIsEscape(content: string, off: nat, body: string, k: nat)
    requires Sits(content, off, body) && k <= |body| && At(body, |body|).ok
    ensures Escaped(content, off + 1 + k) <==> At(body, k).mode.Esc?
  {
    if k > 0 {
      ParityIsEscape(content, off, body, k - 1);
      AtStep(body, k - 1);
      AtOk(body, k);
      AtOk(body, k - 1);
    } else {
      assert body[..0] == "";
    }
  }

  // Scanning left over an object body, the flag and depth are those of the forward lexer, so
  // the scan reaches the body's opening brace at depth one.
  lemma {:induction false} BackwardIsForward(content: string, off: nat, body: string, k: nat)
    requires Sits(content, off, body) && k <= |body| && At(body, |body|).ok
    ensures ScanBack(content, off + k, At(body, k).depth, !At(body, k).mode.Out?) == Some(off)
  {
    AtOk(body, k);
    if k == 0 {
      assert body[..0] == "";
    } else {
      hide At, Escaped;
      BackwardIsForward(content, off, body, k - 1);
      ParityIsEscape(content, off, body, k - 1);
      AtStep(body, k - 1);
      AtOk(body, k - 1);
    }
  }

  lemma BodyEnd(ws: string, members: Members)
    requires IsBlank(ws) && MembersDerive(members)
    ensures At(ObjBody(ws, members), |ObjBody(ws, members)|) == Lex(Out, 1, 1, true)
  {
    var body := ObjBody(ws, members);
    assert body[..|body|] == body;
    RunBody(Lex(Out, 1, 1, true), ws, members);
  }

  // ---------------------------------------------------------------------
  // Trimming around a core that starts and ends with visible characters
  // ---------------------------------------------------------------------

  ghost predicate Visible(core: string) {
    core != "" && !IsSpace(core[0]) && !IsSpace(core[|core| - 1])
  }

  lemma {:induction false} TrimLeftCore(pre: string, t: string)
    requires t != "" && !IsSpace(t[0])
    ensures exists k: nat :: k <= |pre| && TrimLeft(pre + t) == pre[k..] + t
  {
    if pre != "" && IsSpace(pre[0]) {
      TrimLeftCore(pre[1..], t);
      assert (pre + t)[1..] == pre[1..] + t;
      var k: nat :| k <= |pre[1..]| && TrimLeft(pre[1..] + t) == pre[1..][k..] + t;
      assert pre[1..][k..] == pre[k + 1..];
    } else {
      assert pre[0..] == pre;
    }
  }

  lemma {:induction false} TrimRightCore(t: string, post: string)
    requires t != "" && !IsSpace(t[|t| - 1])
    ensures exists k: nat :: k <= |post| && TrimRight(t + post) == t + post[..k]
  {
    if post != "" && IsSpace(post[|post| - 1]) {
      var init := post[..|post| - 1];
      TrimRightCore(t, init);
      assert (t + post)[..|t + post| - 1] == t + init;
      var k: nat :| k <= |init| && TrimRight(t + init) == t + init[..k];
      assert init[..k] == post[..k];
    } else {
      assert post[..|post|] == post;
    }
  }

  lemma TrimSandwich(pre: string, core: string, post: string) returns (p: string, q: string)
    requires Visible(core)
    ensures TrimSpace(pre + core + post) == p + core + q
    ensures |p| <= |pre| && p == pre[|pre| - |p|..] && |q| <= |post| && q == post[..|q|]
  {
    TrimLeftCore(pre, core + post);
    assert pre + (core + post) == pre + core + post;
    var i: nat :| i <= |pre| && TrimLeft(pre + (core + post)) == pre[i..] + (core + post);
    p := pre[i..];
    assert p + (core + post) == (p + core) + post;
    TrimRightCore(p + core, post);
    var j: nat :| j <= |post| && TrimRight((p + core) + post) == (p + core) + post[..j];
    q := post[..j];
  }

  lemma OccursInside(p: string, core: string, q: string, pat: string, i: nat)
    requires OccursAt(core, pat, i)
    ensures OccursAt(p + core + q, pat, |p| + i)
  {
    assert (p + core + q)[|p| + i..|p| + i + |pat|] == core[i..i + |pat|];
  }

  // ---------------------------------------------------------------------
  // The answers of ExtractJSON
  // ---------------------------------------------------------------------

  // A scan that has only skipped text without closing braces.
  lemma {:induction false} SkipTail(s: string, end: int, k: nat, valid: string -> bool)
    requires -1 <= end < |s| && k <= end + 1
    requires forall i :: end - k < i <= end ==> s[i] != '}'
    ensures ScanEnds(s, end, valid) == ScanEnds(s, end - k, valid)
    decreases k
  {
    if k > 0 {
      SkipTail(s, end - 1, k - 1, valid);
    }
  }

  // The scan started on an object's closing brace returns its opening brace.
  lemma ObjectMatched(p: string, ws: string, members: Members, q: string)
    requires IsBlank(ws) && MembersDerive(members)
    ensures var t := Text(Obj(ws, members));
            var s := p + t + q;
            s[|p| + |t| - 1] == '}' && ScanBack(s, |p| + |t| - 1, 0, false) == Some(|p|)
  {
    var body := ObjBody(ws, members);
    BodyEnd(ws, members);
    assert Text(Obj(ws, members)) == "{" + body + "}";
    BracesMatched(p, body, q);
  }

  lemma BracesMatched(p: string, body: string, q: string)
    requires At(body, |body|) == Lex(Out, 1, 1, true)
    ensures var s := p + ("{" + body + "}") + q;
            var end := |p| + |body| + 1;
            s[end] == '}' && ScanBack(s, end, 0, false) == Some(|p|)
  {
    hide Escaped, At;
    var s := p + ("{" + body + "}") + q;
    var end := |p| + |body| + 1;
    assert Sits(s, |p|, body);
    BackwardIsForward(s, |p|, body, |body|);
    assert s[end] == '}';
    assert ScanBack(s, end, 0, false) == ScanBack(s, end - 1, 1, false);
  }

  lemma NoFence(pre: string, core: string, post: string, p: string, q: string)
    requires !Contains(pre + core + post, FENCE)
    requires |p| <= |pre| && p == pre[|pre| - |p|..] && |q| <= |post| && q == post[..|q|]
    ensures Index(p + core + q, FENCE).None?
  {
    var s := p + core + q;
    if Index(s, FENCE).Some? {
      var i := Index(s, FENCE).value;
      var l, r := pre[..|pre| - |p|], post[|q|..];
      assert l + s + r == pre + core + post;
      OccursInside(l, s, r, FENCE, i);
    }
  }

  // An object embedded in prose is found again: whatever precedes it, and whatever follows it
  // without a closing brace, provided no code fence occurs.
  lemma ExtractsObject(pre: string, ws: string, members: Members, post: string, valid: string -> bool)
    requires Derives(Obj(ws, members))
    requires forall i :: 0 <= i < |post| ==> post[i] != '}'
    requires !Contains(pre + Text(Obj(ws, members)) + post, FENCE)
    requires valid(Text(Obj(ws, members)))
    ensures Extract(pre + Text(Obj(ws, members)) + post, valid) == Text(Obj(ws, members))
  {
    hide Derives, MembersDerive, ObjBody, Escaped, IsBlank, Contains, TrimLeft, TrimRight;
    var t := Text(Obj(ws, members));
    assert IsBlank(ws) && MembersDerive(members) by { DerivesObj(ws, members); }
    ObjectVisible(ws, members);
    var p, q := TrimSandwich(pre, t, post);
    var s := p + t + q;
    NoFence(pre, t, post, p, q);
    assert FencedBlock(s).None?;
    ObjectMatched(p, ws, members, q);
    var end := |p| + |t| - 1;
    assert forall i :: end < i <= |s| - 1 ==> s[i] == q[i - end - 1];
    SkipTail(s, |s| - 1, |q|, valid);
    assert s[|p|..end + 1] == t;
  }

  lemma DerivesObj(ws: string, members: Members)
    requires Derives(Obj(ws, members))
    ensures IsBlank(ws) && MembersDerive(members)
  {
  }

  lemma ObjectVisible(ws: string, members: Members)
    ensures Visible(Text(Obj(ws, members)))
  {
    var t := Text(Obj(ws, members));
    assert t[0] == '{' && t[|t| - 1] == '}';
  }

  // Whatever is returned passed the validator, unless it is the whole trimmed text.
  lemma {:induction false} ScanSound(s: string, end: int, valid: string -> bool)
    requires -1 <= end < |s|
    ensures valid(ScanEnds(s, end, valid)) || ScanEnds(s, end, valid) == s
    decreases end + 1
  {
    if end >= 0 {
      ScanSound(s, end - 1, valid);
    }
  }

  // An object closes at the given place, and json.Valid accepts it.
  predicate AcceptedAt(s: string, end: nat, valid: string -> bool)
    requires end < |s|
  {
    s[end] == '}' && ScanBack(s, end, 0, false).Some? && valid(s[ScanBack(s, end, 0, false).value..end + 1])
  }

  // Among the objects that are accepted, the one that closes last is taken: objects refused behind it do not matter.
  lemma {:induction false} LastAccepted(s: string, end: int, from: int, valid: string -> bool)
    requires -1 <= end <= from < |s|
    requires forall k :: end < k <= from ==> !AcceptedAt(s, k, valid)
    ensures end >= 0 && AcceptedAt(s, end, valid) ==>
      ScanEnds(s, from, valid) == s[ScanBack(s, end, 0, false).value..end + 1]
    ensures end < 0 ==> ScanEnds(s, from, valid) == s
    decreases from
  {
    hide ScanBack;
    if from > end {
      assert !AcceptedAt(s, from, valid);
      LastAccepted(s, end, from - 1, valid);
    }
  }

  // r is the accepted object that closes last, or all of s if none is accepted.
  ghost predicate TakesLast(s: string, valid: string -> bool, r: string) {
    if NoneAccepted(s, 0, valid) then r == s
    else exists end: nat ::
           && end < |s| && AcceptedAt(s, end, valid) && NoneAccepted(s, end + 1, valid)
           && r == s[ScanBack(s, end, 0, false).value..end + 1]
  }

  ghost predicate NoneAccepted(s: string, from: nat, valid: string -> bool) {
    forall k :: from <= k < |s| ==> !AcceptedAt(s, k, valid)
  }

  lemma {:induction false} ScanTakesLast(s: string, end: int, valid: string -> bool)
    requires -1 <= end < |s| && NoneAccepted(s, end + 1, valid)
    ensures TakesLast(s, valid, ScanEnds(s, end, valid))
  {
    hide ScanBack;
    if end >= 0 && !AcceptedAt(s, end, valid) {
      ScanTakesLast(s, end - 1, valid);
    }
  }

  // A text has at most one fenced block.
  lemma OneBlock(s: string, i: nat, a: nat, j: nat, i2: nat, a2: nat, j2: nat)
    requires Delimits(s, i, a, j) && Delimits(s, i2, a2, j2)
    ensures (i, a, j) == (i2, a2, j2)
  {
    hide BodyStart;
    assert i == i2;
    BodyStartIs(s, i, a);
    BodyStartIs(s, i, a2);
  }

  // The block between the first fence's line and the next fence, if there is one and it is accepted; and otherwise,
  // whatever the block holds, the accepted object that closes last, or the trimmed text.
  lemma ExtractMeans(text: string, valid: string -> bool)
    ensures var s := TrimSpace(text);
            forall i: nat, a: nat, j: nat :: Delimits(s, i, a, j) && valid(TrimSpace(s[a..j])) ==>
              Extract(text, valid) == TrimSpace(s[a..j])
    ensures var s := TrimSpace(text);
            (forall i: nat, a: nat, j: nat :: Delimits(s, i, a, j) ==> !valid(TrimSpace(s[a..j]))) ==>
              TakesLast(s, valid, Extract(text, valid))
  {
    hide TrimLeft, TrimRight, FencedBlock, TakesLast, ScanEnds, OccursAt, NoNewline;
    var s := TrimSpace(text);
    FencedBlockIs(s);
    ScanTakesLast(s, |s| - 1, valid);
    if FencedBlock(s).Some? {
      var i: nat, a: nat, j: nat :| Delimits(s, i, a, j) && FencedBlock(s).value == TrimSpace(s[a..j]);
      forall i2: nat, a2: nat, j2: nat | Delimits(s, i2, a2, j2) ensures (i, a, j) == (i2, a2, j2) {
        OneBlock(s, i, a, j, i2, a2, j2);
      }
    }
  }

  // An object with closing braces behind it is found all the same, as long as nothing that closes there is accepted.
  lemma ExtractsDespite(pre: string, ws: string, members: Members, post: string, valid: string -> bool)
    requires Derives(Obj(ws, members)) && valid(Text(Obj(ws, members)))
    requires var s := pre + Text(Obj(ws, members)) + post;
             && TrimSpace(s) == s && !Contains(s, FENCE)
             && forall k :: |s| - |post| <= k < |s| ==> !AcceptedAt(s, k, valid)
    ensures Extract(pre + Text(Obj(ws, members)) + post, valid) == Text(Obj(ws, members))
  {
    hide Derives, MembersDerive, ObjBody, Escaped, IsBlank, Contains, TrimLeft, TrimRight, ScanEnds, ScanBack, AcceptedAt;
    var t := Text(Obj(ws, members));
    var s := pre + t + post;
    assert IsBlank(ws) && MembersDerive(members) by { DerivesObj(ws, members); }
    ObjectVisible(ws, members);
    NoBlock(s);
    ObjectMatched(pre, ws, members, post);
    var end := |pre| + |t| - 1;
    assert s[|pre|..end + 1] == t;
    Accepted(s, end, |pre|, valid);
    LastAccepted(s, end, |s| - 1, valid);
  }

  lemma NoBlock(s: string)
    requires !Contains(s, FENCE)
    ensures FencedBlock(s) == None
  {
    hide IndexFrom;
    assert Index(s, FENCE).None?;
  }

  lemma Accepted(s: string, end: nat, i: nat, valid: string -> bool)
    requires i <= end < |s| && s[end] == '}' && ScanBack(s, end, 0, false) == Some(i) && valid(s[i..end + 1])
    ensures AcceptedAt(s, end, valid)
  {
  }

  lemma ExtractSound(text: string, valid: string -> bool)
    ensures valid(Extract(text, valid)) || Extract(text, valid) == TrimSpace(text)
  {
    ScanSound(TrimSpace(text), |TrimSpace(text)| - 1, valid);
  }

  lemma IndexIs(s: string, a: string, pat: string, b: string)
    requires s == a + pat + b
    requires forall i: nat :: i < |a| ==> !OccursAt(s, pat, i)
    ensures Index(s, pat) == Some(|a|)
  {
    assert s[|a|..|a| + |pat|] == pat;
    assert OccursAt(s, pat, |a|);
  }

  // In front of a fence, no other fence begins.
  ghost predicate FenceFree(t: string) { forall i: nat :: i < |t| ==> !OccursAt(t + FENCE, FENCE, i) }

  lemma FenceFreeSuffix(t: string, k: nat)
    requires FenceFree(t) && k <= |t|
    ensures FenceFree(t[k..])
  {
    forall i: nat | i < |t[k..]| ensures !OccursAt(t[k..] + FENCE, FENCE, i) {
      assert (t + FENCE)[k..] == t[k..] + FENCE;
      OccursInSuffix(t + FENCE, k, FENCE, i);
    }
  }

  // The first fence behind fence-free text is the one that follows it.
  lemma FenceFound(t: string, b: string)
    requires FenceFree(t)
    ensures Index(t + FENCE + b, FENCE) == Some(|t|)
  {
    var s := t + FENCE + b;
    forall i: nat | i < |t| ensures !OccursAt(s, FENCE, i) {
      assert !OccursAt(t + FENCE, FENCE, i);
      assert s[i..i + 3] == (t + FENCE)[i..i + 3];
    }
    IndexIs(s, t, FENCE, b);
  }

  predicate AllSpace(s: string) { forall i :: 0 <= i < |s| ==> IsSpace(s[i]) }

  lemma {:induction false} TrimLeftSpace(w: string, t: string)
    requires AllSpace(w) && t != "" && !IsSpace(t[0])
    ensures TrimLeft(w + t) == t
  {
    if w == "" {
      assert w + t == t;
    } else {
      assert (w + t)[1..] == w[1..] + t;
      TrimLeftSpace(w[1..], t);
    }
  }

  lemma {:induction false} TrimRightSpace(t: string, w: string)
    requires AllSpace(w) && t != "" && !IsSpace(t[|t| - 1])
    ensures TrimRight(t + w) == t
  {
    if w == "" {
      assert t + w == t;
    } else {
      assert (t + w)[..|t + w| - 1] == t + w[..|w| - 1];
      TrimRightSpace(t, w[..|w| - 1]);
    }
  }

  lemma TrimBlanks(w1: string, core: string, w2: string)
    requires AllSpace(w1) && AllSpace(w2) && Visible(core)
    ensures TrimSpace(w1 + core + w2) == core
  {
    TrimLeftSpace(w1, core + w2);
    assert w1 + (core + w2) == w1 + core + w2;
    TrimRightSpace(core, w2);
  }

  // The same, told from the first fence of the text on.
  lemma ExtractsBehindFence(pre: string, lang: string, w1: string, core: string, w2: string, post: string,
      valid: string -> bool)
    requires FenceFree(pre) && FenceFree(w1 + core + w2) && NoNewline(lang)
    requires AllSpace(w1) && AllSpace(w2) && Visible(core)
    requires valid(core)
    ensures Extract(pre + (FENCE + lang + "\n" + (w1 + core + w2) + FENCE) + post, valid) == core
  {
    hide TrimLeft, TrimRight, ScanEnds, FenceFree;
    var block := w1 + core + w2;
    TrimBlanks(w1, core, w2);
    var fenced := FENCE + lang + "\n" + block + FENCE;
    assert fenced[0] == '`' && fenced[|fenced| - 1] == '`';
    var p, q := TrimSandwich(pre, fenced, post);
    var s := p + fenced + q;
    var after := lang + "\n" + block + FENCE + q;
    assert s == p + FENCE + after;
    FenceFreeSuffix(pre, |pre| - |p|);
    FenceFound(p, after);
    assert s[|p| + 3..] == after;
    assert after == lang + "\n" + (block + FENCE + q);
    NewlineFound(lang, block + FENCE + q);
    assert after[|lang| + 1..] == block + FENCE + q;
    FenceFound(block, q);
    assert (block + FENCE + q)[..|block|] == block;
  }

  // A fenced value is returned without its fence, language tag and surrounding blanks: whatever stands in
  // front, as long as the first fence is on the line in front of the value and no fence begins inside.
  lemma ExtractsFenced(head: string, w1: string, core: string, w2: string, post: string, valid: string -> bool)
    requires Index(head, FENCE).Some? && NoNewline(head[Index(head, FENCE).value + 3..])
    requires FenceFree(w1 + core + w2)
    requires AllSpace(w1) && AllSpace(w2) && Visible(core)
    requires valid(core)
    ensures Extract(head + "\n" + (w1 + core + w2) + FENCE + post, valid) == core
  {
    hide Extract, AllSpace, Visible, NoNewline, IndexFrom;
    var i := Index(head, FENCE).value;
    var pre, lang := head[..i], head[i + 3..];
    assert head == pre + FENCE + lang;
    forall k: nat | k < |pre| ensures !OccursAt(pre + FENCE, FENCE, k) {
      assert !OccursAt(head, FENCE, k);
      assert head[..i + 3] == pre + FENCE;
      assert head[..i + 3][k..k + 3] == head[k..k + 3];
    }
    ExtractsBehindFence(pre, lang, w1, core, w2, post, valid);
    assert pre + (FENCE + lang + "\n" + (w1 + core + w2) + FENCE) + post == head + "\n" + (w1 + core + w2) + FENCE + post;
  }

  lemma NewlineFound(lang: string, b: string)
    requires NoNewline(lang)
    ensures Index(lang + "\n" + b, "\n") == Some(|lang|)
  {
    var s := lang + "\n" + b;
    forall i: nat | i < |lang| ensures !OccursAt(s, "\n", i) {
      assert s[i..i + 1] == [lang[i]] != "\n";
    }
    IndexIs(s, lang, "\n", b);
  }
}
