// The JSON grammar of RFC 8259, sections 2 to 7, as concrete syntax trees, and the ordinary
// left-to-right reading of quotes and braces.
module JsonText {
  import opened Prelude

  // One character of a string literal: unescaped, a two-character escape, or \uXXXX.
  datatype JChar = Plain(c: char) | Escape(e: char) | Unicode(h: string)

  datatype Exponent = NoExponent | Exponent(mark: char, sign: string, digits: string)

  // Blank space is part of the tree, so every layout of a value is a tree of its own.
  datatype Json =
    | Null | True | False
    | Number(minus: bool, whole: string, frac: string, exp: Exponent)
    | Str(chars: seq<JChar>)
    | Arr(ws: string, items: Items)
    | Obj(ws: string, members: Members)

  datatype Items = NoItems | Item(lead: string, value: Json, trail: string, rest: Items)

  datatype Members =
    | NoMembers
    | Member(lead: string, key: seq<JChar>, ws1: string, ws2: string, value: Json, trail: string, rest: Members)

  predicate IsBlank(ws: string) {
    forall i :: 0 <= i < |ws| ==> ws[i] == ' ' || ws[i] == '\t' || ws[i] == '\n' || ws[i] == '\r'
  }

  predicate IsDigit(c: char) { '0' <= c <= '9' }

  predicate AllDigits(s: string) { forall i :: 0 <= i < |s| ==> IsDigit(s[i]) }

  predicate IsHex(c: char) { IsDigit(c) || 'a' <= c <= 'f' || 'A' <= c <= 'F' }

  predicate CharOk(j: JChar) {
    match j
    case Plain(c) => c as int >= 0x20 && c != '"' && c != '\\'
    case Escape(e) => e in "\"\\/bfnrt"
    case Unicode(h) => |h| == 4 && forall i :: 0 <= i < |h| ==> IsHex(h[i])
  }

  predicate StringOk(cs: seq<JChar>) { forall i :: 0 <= i < |cs| ==> CharOk(cs[i]) }

  predicate NumberOk(whole: string, frac: string, exp: Exponent) {
    && whole != "" && AllDigits(whole) && (whole[0] == '0' ==> |whole| == 1)
    && AllDigits(frac)
    && match exp
       case NoExponent => true
       case Exponent(m, sg, ds) => m in "eE" && sg in ["", "+", "-"] && ds != "" && AllDigits(ds)
  }

  // The tree derives a JSON value.
  predicate Derives(v: Json) {
    match v
    case Number(_, whole, frac, exp) => NumberOk(whole, frac, exp)
    case Str(cs) => StringOk(cs)
    case Arr(ws, items) => IsBlank(ws) && ItemsDerive(items)
    case Obj(ws, members) => IsBlank(ws) && MembersDerive(members)
    case _ => true
  }

  predicate ItemsDerive(items: Items) {
    match items
    case NoItems => true
    case Item(lead, v, trail, rest) => IsBlank(lead) && Derives(v) && IsBlank(trail) && ItemsDerive(rest)
  }

  predicate MembersDerive(ms: Members) {
    match ms
    case NoMembers => true
    case Member(lead, key, ws1, ws2, v, trail, rest) =>
      IsBlank(lead) && StringOk(key) && IsBlank(ws1) && IsBlank(ws2) && Derives(v) && IsBlank(trail) && MembersDerive(rest)
  }

  function CharText(j: JChar): string {
    match j
    case Plain(c) => [c]
    case Escape(e) => ['\\', e]
    case Unicode(h) => "\\u" + h
  }

  function CharsText(cs: seq<JChar>): string {
    if cs == [] then "" else CharText(cs[0]) + CharsText(cs[1..])
  }

  function StringText(cs: seq<JChar>): string { "\"" + CharsText(cs) + "\"" }

  function NumberText(minus: bool, whole: string, frac: string, exp: Exponent): string {
    (if minus then "-" else "") + whole
    + (if frac == "" then "" else "." + frac)
    + (match exp case NoExponent => "" case Exponent(m, sg, ds) => [m] + sg + ds)
  }

  function Text(v: Json): string
    decreases v, 0
  {
    match v
    case Null => "null"
    case True => "true"
    case False => "false"
    case Number(minus, whole, frac, exp) => NumberText(minus, whole, frac, exp)
    case Str(cs) => StringText(cs)
    case Arr(ws, items) => "[" + ws + ItemsText(items) + "]"
    case Obj(ws, members) => "{" + ObjBody(ws, members) + "}"
  }

  function ObjBody(ws: string, members: Members): string
    decreases members, 1
  {
    ws + MembersText(members)
  }

  function ItemsText(items: Items): string
    decreases items, 0
  {
    match items
    case NoItems => ""
    case Item(lead, v, trail, rest) =>
      lead + Text(v) + trail + (if rest.NoItems? then "" else "," + ItemsText(rest))
  }

  function KeyText(lead: string, key: seq<JChar>, ws1: string, ws2: string): string {
    lead + StringText(key) + (ws1 + ":" + ws2)
  }

  function MembersText(ms: Members): string
    decreases ms, 0
  {
    match ms
    case NoMembers => ""
    case Member(lead, key, ws1, ws2, v, trail, rest) =>
      KeyText(lead, key, ws1, ws2) + Text(v) + trail + (if rest.NoMembers? then "" else "," + MembersText(rest))
  }

  // ---------------------------------------------------------------------
  // The forward lexer
  // ---------------------------------------------------------------------

  datatype Mode = Out | In | Esc

  // depth counts braces outside strings; ok records that no backslash appeared outside a
  // string and that depth never went below floor.
  datatype Lex = Lex(mode: Mode, depth: int, floor: int, ok: bool)

  function Step(l: Lex, c: char): Lex {
    match l.mode
    case Esc => l.(mode := In)
    case In => if c == '"' then l.(mode := Out) else if c == '\\' then l.(mode := Esc) else l
    case Out =>
      if c == '"' then l.(mode := In)
      else if c == '\\' then l.(ok := false)
      else if c == '{' then l.(depth := l.depth + 1)
      else if c == '}' then l.(depth := l.depth - 1, ok := l.ok && l.depth - 1 >= l.floor)
      else l
  }

  function Run(l: Lex, s: string): Lex {
    if s == "" then l else Step(Run(l, s[..|s| - 1]), s[|s| - 1])
  }

  lemma {:induction false} RunConcat(l: Lex, a: string, b: string)
    ensures Run(l, a + b) == Run(Run(l, a), b)
  {
    if b == "" {
      assert a + b == a;
    } else {
      RunConcat(l, a, b[..|b| - 1]);
      assert (a + b)[..|a + b| - 1] == a + b[..|b| - 1];
    }
  }

  lemma RunOne(l: Lex, c: char)
    ensures Run(l, [c]) == Step(l, c)
  {
    assert [c][..0] == "";
  }

  predicate PlainText(s: string) {
    forall i :: 0 <= i < |s| ==> s[i] != '"' && s[i] != '\\' && s[i] != '{' && s[i] != '}'
  }

  // Text without quotes, backslashes and braces leaves the lexer where it was.
  lemma {:induction false} RunPlain(l: Lex, s: string)
    requires l.mode.Out? && PlainText(s)
    ensures Run(l, s) == l
  {
    if s != "" {
      RunPlain(l, s[..|s| - 1]);
    }
  }

  lemma {:induction false} OkPrefix(l: Lex, s: string, k: nat)
    requires k <= |s| && Run(l, s).ok
    ensures Run(l, s[..k]).ok
  {
    if k < |s| {
      OkPrefix(l, s[..|s| - 1], k);
      assert s[..|s| - 1][..k] == s[..k];
    } else {
      assert s[..k] == s;
    }
  }

  lemma {:induction false} DepthAtLeastFloor(l: Lex, s: string)
    requires l.depth >= l.floor && Run(l, s).ok
    ensures Run(l, s).depth >= l.floor && Run(l, s).floor == l.floor
  {
    if s != "" {
      OkPrefix(l, s, |s| - 1);
      DepthAtLeastFloor(l, s[..|s| - 1]);
    }
  }

  // Inside a string the lexer consumes each character of the literal and stays inside.
  lemma RunChar(l: Lex, j: JChar)
    requires l.mode.In? && CharOk(j)
    ensures Run(l, CharText(j)) == l
  {
    match j
    case Plain(c) => RunOne(l, c);
    case Escape(e) =>
      assert ['\\', e] == ['\\'] + [e];
      RunConcat(l, ['\\'], [e]);
      RunOne(l, '\\');
      RunOne(l.(mode := Esc), e);
    case Unicode(h) =>
      assert "\\u" + h == ['\\'] + (['u'] + h);
      RunConcat(l, ['\\'], ['u'] + h);
      RunOne(l, '\\');
      RunConcat(l.(mode := Esc), ['u'], h);
      RunOne(l.(mode := Esc), 'u');
      RunHex(l, h);
  }

  lemma {:induction false} RunHex(l: Lex, h: string)
    requires l.mode.In? && forall i :: 0 <= i < |h| ==> IsHex(h[i])
    ensures Run(l, h) == l
  {
    if h != "" {
      RunHex(l, h[..|h| - 1]);
    }
  }

  lemma {:induction false} RunChars(l: Lex, cs: seq<JChar>)
    requires l.mode.In? && StringOk(cs)
    ensures Run(l, CharsText(cs)) == l
  {
    if cs != [] {
      RunConcat(l, CharText(cs[0]), CharsText(cs[1..]));
      RunChar(l, cs[0]);
      RunChars(l, cs[1..]);
    }
  }

  lemma RunString(l: Lex, cs: seq<JChar>)
    requires l.mode.Out? && StringOk(cs)
    ensures Run(l, StringText(cs)) == l
  {
    var l1 := l.(mode := In);
    RunConcat(l, "\"" + CharsText(cs), "\"");
    RunConcat(l, "\"", CharsText(cs));
    RunOne(l, '"');
    RunChars(l1, cs);
    RunOne(l1, '"');
  }

  // A lexer outside strings, at or above its floor, with nothing wrong so far.
  predicate Ready(l: Lex) { l.mode.Out? && l.ok && l.depth >= l.floor }

  // Every JSON value is balanced: read from outside a string, it returns the lexer to the same state.
  lemma {:induction false} RunValue(l: Lex, v: Json)
    requires Ready(l) && Derives(v)
    ensures Run(l, Text(v)) == l
    decreases v, 1
  {
    hide Run, StringOk, NumberOk;
    match v
    case Null => RunPlain(l, "null");
    case True => RunPlain(l, "true");
    case False => RunPlain(l, "false");
    case Number(minus, whole, frac, exp) => RunNumber(l, minus, whole, frac, exp);
    case Str(cs) => RunString(l, cs);
    case Arr(ws, items) =>
      RunConcat(l, "[" + ws + ItemsText(items), "]");
      RunConcat(l, "[" + ws, ItemsText(items));
      RunPlain(l, "[" + ws);
      RunItems(l, items);
      RunPlain(l, "]");
    case Obj(ws, members) =>
      RunBody(l.(depth := l.depth + 1), ws, members);
      RunBraces(l, ObjBody(ws, members));
  }

  lemma RunNumber(l: Lex, minus: bool, whole: string, frac: string, exp: Exponent)
    requires l.mode.Out? && NumberOk(whole, frac, exp)
    ensures Run(l, NumberText(minus, whole, frac, exp)) == l
  {
    RunPlain(l, NumberText(minus, whole, frac, exp));
  }

  // A balanced text stays balanced between braces.
  lemma RunBraces(l: Lex, body: string)
    requires Ready(l) && Run(l.(depth := l.depth + 1), body) == l.(depth := l.depth + 1)
    ensures Run(l, "{" + body + "}") == l
  {
    var l1 := l.(depth := l.depth + 1);
    RunOne(l, '{');
    RunOne(l1, '}');
    RunAround(l, "{", l1, body, "}");
  }

  lemma RunAround(l: Lex, open: string, l1: Lex, body: string, close: string)
    requires Run(l, open) == l1 && Run(l1, body) == l1 && Run(l1, close) == l
    ensures Run(l, open + body + close) == l
  {
    hide Run;
    RunConcat(l, open + body, close);
    RunConcat(l, open, body);
  }

  lemma {:induction false} RunBody(l: Lex, ws: string, members: Members)
    requires Ready(l) && IsBlank(ws) && MembersDerive(members)
    ensures Run(l, ObjBody(ws, members)) == l
    decreases members, 2
  {
    RunConcat(l, ws, MembersText(members));
    RunPlain(l, ws);
    RunMembers(l, members);
  }

  lemma {:induction false} RunItems(l: Lex, items: Items)
    requires Ready(l) && ItemsDerive(items)
    ensures Run(l, ItemsText(items)) == l
    decreases items, 1
  {
    match items
    case NoItems =>
    case Item(lead, v, trail, rest) =>
      var tail := if rest.NoItems? then "" else "," + ItemsText(rest);
      RunConcat(l, lead + Text(v) + trail, tail);
      RunConcat(l, lead + Text(v), trail);
      RunConcat(l, lead, Text(v));
      RunPlain(l, lead);
      RunValue(l, v);
      RunPlain(l, trail);
      if !rest.NoItems? {
        RunConcat(l, ",", ItemsText(rest));
        RunPlain(l, ",");
        RunItems(l, rest);
      }
  }

  lemma RunKey(l: Lex, lead: string, key: seq<JChar>, ws1: string, ws2: string)
    requires l.mode.Out? && IsBlank(lead) && StringOk(key) && IsBlank(ws1) && IsBlank(ws2)
    ensures Run(l, KeyText(lead, key, ws1, ws2)) == l
  {
    RunConcat(l, lead + StringText(key), ws1 + ":" + ws2);
    RunConcat(l, lead, StringText(key));
    RunPlain(l, lead);
    RunString(l, key);
    RunPlain(l, ws1 + ":" + ws2);
  }

  lemma {:induction false} RunMembers(l: Lex, ms: Members)
    requires Ready(l) && MembersDerive(ms)
    ensures Run(l, MembersText(ms)) == l
    decreases ms, 1
  {
    match ms
    case NoMembers =>
    case Member(lead, key, ws1, ws2, v, trail, rest) =>
      hide StringOk, Run, KeyText;
      var tail := if rest.NoMembers? then "" else "," + MembersText(rest);
      var head := KeyText(lead, key, ws1, ws2);
      RunConcat(l, head + Text(v) + trail, tail);
      RunConcat(l, head + Text(v), trail);
      RunConcat(l, head, Text(v));
      RunKey(l, lead, key, ws1, ws2);
      RunValue(l, v);
      RunPlain(l, trail);
      if rest.NoMembers? {
        RunPlain(l, "");
      } else {
        RunConcat(l, ",", MembersText(rest));
        RunPlain(l, ",");
        RunMembers(l, rest);
      }
  }
}
