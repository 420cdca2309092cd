// Messages to Google generateContent turns and back: llm/provider_google.go,
// with llm/provider_helpers.go:27-41 and llm/message.go:64-82.
module GoogleWire {
  import opened Prelude
  import opened Strings
  import J = JsonText

  datatype ContentBlock = ContentBlock(kind: string, text: string, mediaType: string, image: string)

  datatype ToolCall = ToolCall(id: string, name: string, input: string)

  datatype Message = Message(
    role: string, content: string, blocks: seq<ContentBlock>, reasoning: string,
    toolCalls: seq<ToolCall>, toolCallID: string)

  datatype InlineData = InlineData(mimeType: string, data: string)

  datatype FunctionCall = FunctionCall(name: string, args: string)

  datatype FunctionResponse = FunctionResponse(name: string, response: string)

  // One wire part; the same record carries request parts and response parts.
  datatype Part = Part(
    text: string, inline: Option<InlineData>, call: Option<FunctionCall>, response: Option<FunctionResponse>,
    thought: bool, signature: string)

  datatype Content = Content(role: string, parts: seq<Part>)

  datatype Request = Request(system: string, contents: seq<Content>)

  datatype Candidate = Candidate(content: Content, finishReason: string)

  datatype Response = Response(message: Message, stopReason: string)

  datatype Parsed = Parsed(response: Response) | NoCandidates | NoContent

  function TextPart(text: string): Part { Part(text, None, None, None, false, "") }

  // json.Valid, and the encoding of a string as a JSON string literal.
  datatype Codec = Codec(valid: string -> bool, quote: string -> string)

  // ---------------------------------------------------------------------
  // Thought signatures
  // ---------------------------------------------------------------------

  const SEP: char := '\U{1F}'

  // Where the first separator stands, or the length.
  function Cut(s: string): (i: nat)
    ensures i <= |s| && (i < |s| ==> s[i] == SEP) && forall k :: 0 <= k < i ==> s[k] != SEP
  {
    if s == "" || s[0] == SEP then 0 else 1 + Cut(s[1..])
  }

  function SignatureID(name: string, sig: string): string {
    if sig == "" then name else name + [SEP] + sig
  }

  function SignatureFromID(id: string): string {
    var i := Cut(id);
    if i < |id| then id[i + 1..] else ""
  }

  lemma CutUnique(s: string, i: nat)
    requires i <= |s| && (i < |s| ==> s[i] == SEP) && forall k :: 0 <= k < i ==> s[k] != SEP
    ensures Cut(s) == i
  {
  }

  // A name the signature survives: without the separator, or unsigned and ending in its only one.
  predicate Carries(name: string, sig: string) {
    Lacks(name, SEP) || (sig == "" && Cut(name) == |name| - 1)
  }

  lemma SignatureSurvives(name: string, sig: string)
    ensures SignatureFromID(SignatureID(name, sig)) == sig <==> Carries(name, sig)
    ensures SignatureID(name, "") == name && name <= SignatureID(name, sig)
  {
    var id := SignatureID(name, sig);
    var i := Cut(name);
    if i < |name| {
      assert id[i] == SEP;
      CutUnique(id, i);
      assert |id[i + 1..]| == |id| - i - 1;
    } else {
      CutUnique(id, |name|);
      if sig != "" {
        assert id[|name| + 1..] == sig;
      }
    }
  }

  // A signature lost: the name holds the separator, and its tail is read back in front of the signature.
  lemma SignatureLostExample()
    ensures SignatureFromID(SignatureID("a" + [SEP] + "b", "sig")) == "b" + [SEP] + "sig" != "sig"
  {
    var id := SignatureID("a" + [SEP] + "b", "sig");
    CutUnique(id, 1);
    assert id[2..] == "b" + [SEP] + "sig";
  }

  // An identifier made for a separator-free name tells the name.
  lemma SignatureTellsName(name: string, sig: string, other: string, sig2: string)
    requires Lacks(name, SEP) && Lacks(other, SEP) && SignatureID(name, sig) == SignatureID(other, sig2)
    ensures name == other && sig == sig2
  {
    var id := SignatureID(name, sig);
    CutUnique(id, |name|);
    CutUnique(id, |other|);
    assert name == id[..Cut(id)] && other == id[..Cut(id)];
    SignatureSurvives(name, sig);
    SignatureSurvives(other, sig2);
  }

  // ---------------------------------------------------------------------
  // Function responses
  // ---------------------------------------------------------------------

  function Payload(content: string, codec: Codec): string {
    var trimmed := TrimSpace(content);
    if trimmed != "" && trimmed[0] == '{' && codec.valid(trimmed) then trimmed
    else "{\"result\":" + codec.quote(content) + "}"
  }

  // A JSON text: one value with blanks around it (RFC 8259, section 2).
  ghost predicate IsJsonText(s: string) {
    exists v, w1, w2 :: J.Derives(v) && J.IsBlank(w1) && J.IsBlank(w2) && s == w1 + J.Text(v) + w2
  }

  ghost predicate IsJsonString(s: string) {
    exists cs :: J.StringOk(cs) && s == J.StringText(cs)
  }

  ghost predicate IsJsonObject(s: string) {
    exists ws, members :: J.Derives(J.Obj(ws, members)) && s == J.Text(J.Obj(ws, members))
  }

  ghost predicate CodecOk(codec: Codec) {
    && (forall s :: codec.valid(s) ==> IsJsonText(s))
    && (forall s :: IsJsonString(codec.quote(s)))
  }

  // The payload is a JSON object whatever the tool printed.
  lemma PayloadIsObject(content: string, codec: Codec)
    requires CodecOk(codec)
    ensures IsJsonObject(Payload(content, codec))
  {
    var trimmed := TrimSpace(content);
    if trimmed != "" && trimmed[0] == '{' && codec.valid(trimmed) {
      assert IsJsonText(trimmed);
      TrimmedEnd(TrimLeft(content));
      TrimmedObject(trimmed);
    } else {
      WrappedObject(codec.quote(content));
    }
  }

  predicate AllSpace(s: string) { forall i :: 0 <= i < |s| ==> IsSpace(s[i]) }

  // The content is a JSON object with white space around it.
  ghost predicate SpellsObject(content: string, obj: string, codec: Codec) {
    && obj != "" && obj[0] == '{' && !IsSpace(obj[|obj| - 1]) && codec.valid(obj)
    && exists w1, w2 :: AllSpace(w1) && AllSpace(w2) && content == w1 + obj + w2
  }

  // An object is sent as it is, without the white space around it; any other content as the member "result".
  lemma PayloadMeans(content: string, codec: Codec)
    ensures forall obj :: SpellsObject(content, obj, codec) ==> Payload(content, codec) == obj
    ensures SpellsObject(content, Payload(content, codec), codec)
            || ((forall obj :: !SpellsObject(content, obj, codec))
                && Payload(content, codec) == "{\"result\":" + codec.quote(content) + "}")
  {
    var trimmed := TrimSpace(content);
    forall obj | SpellsObject(content, obj, codec) ensures obj == trimmed {
      var w1, w2 :| AllSpace(w1) && AllSpace(w2) && content == w1 + obj + w2;
      TrimmedBetween(w1, obj, w2);
    }
    if trimmed != "" && trimmed[0] == '{' && codec.valid(trimmed) {
      hide TrimLeft, TrimRight;
      TrimmedEnd(TrimLeft(content));
      var w1 := SpaceInFront(content);
      var w2 := SpaceBehind(TrimLeft(content));
      assert content == w1 + trimmed + w2;
    }
  }

  lemma {:induction false} SpaceInFront(s: string) returns (w: string)
    ensures AllSpace(w) && s == w + TrimLeft(s)
  {
    w := "";
    if s != "" && IsSpace(s[0]) {
      var rest := SpaceInFront(s[1..]);
      w := [s[0]] + rest;
      assert s == [s[0]] + s[1..];
    }
  }

  lemma {:induction false} SpaceBehind(s: string) returns (w: string)
    ensures AllSpace(w) && s == TrimRight(s) + w
  {
    w := "";
    if s != "" && IsSpace(s[|s| - 1]) {
      var rest := SpaceBehind(s[..|s| - 1]);
      w := rest + [s[|s| - 1]];
      assert s == s[..|s| - 1] + [s[|s| - 1]];
    }
  }

  lemma TrimmedBetween(w1: string, s: string, w2: string)
    requires AllSpace(w1) && AllSpace(w2) && s != "" && !IsSpace(s[0]) && !IsSpace(s[|s| - 1])
    ensures TrimSpace(w1 + s + w2) == s
  {
    hide IsSpace;
    LeftTrimmed(w1, s + w2);
    assert w1 + (s + w2) == w1 + s + w2;
    RightTrimmed(s, w2);
  }

  lemma {:induction false} LeftTrimmed(w: string, s: string)
    requires AllSpace(w) && s != "" && !IsSpace(s[0])
    ensures TrimLeft(w + s) == s
  {
    hide IsSpace;
    if w == "" {
      assert w + s == s;
    } else {
      assert (w + s)[1..] == w[1..] + s;
      LeftTrimmed(w[1..], s);
    }
  }

  lemma {:induction false} RightTrimmed(s: string, w: string)
    requires AllSpace(w) && s != "" && !IsSpace(s[|s| - 1])
    ensures TrimRight(s + w) == s
  {
    hide IsSpace;
    if w == "" {
      assert s + w == s;
    } else {
      assert (s + w)[..|s + w| - 1] == s + w[..|w| - 1];
      RightTrimmed(s, w[..|w| - 1]);
    }
  }

  lemma {:induction false} TrimmedEnd(s: string)
    ensures TrimRight(s) != "" ==> !IsSpace(TrimRight(s)[|TrimRight(s)| - 1])
  {
    if s != "" && IsSpace(s[|s| - 1]) {
      TrimmedEnd(s[..|s| - 1]);
    }
  }

  lemma TrimmedObject(s: string)
    requires IsJsonText(s) && s != "" && s[0] == '{' && !IsSpace(s[|s| - 1])
    ensures IsJsonObject(s)
  {
    var v, w1, w2 :| J.Derives(v) && J.IsBlank(w1) && J.IsBlank(w2) && s == w1 + J.Text(v) + w2;
    assert w1 == "";
    assert w2 == "";
    assert s == J.Text(v);
    FirstOfText(v);
  }

  lemma FirstOfText(v: J.Json)
    requires J.Derives(v)
    ensures J.Text(v) != "" && (J.Text(v)[0] == '{' ==> v.Obj?)
  {
  }

  lemma WrappedObject(q: string)
    requires IsJsonString(q)
    ensures IsJsonObject("{\"result\":" + q + "}")
  {
    hide J.StringOk, J.StringText, J.KeyText, J.CharsText;
    var cs :| J.StringOk(cs) && q == J.StringText(cs);
    var key := [J.Plain('r'), J.Plain('e'), J.Plain('s'), J.Plain('u'), J.Plain('l'), J.Plain('t')];
    ResultKey(key);
    OneMember(key, cs);
  }

  lemma OneMember(key: seq<J.JChar>, cs: seq<J.JChar>)
    requires J.StringOk(key) && J.StringOk(cs)
    ensures IsJsonObject("{" + J.KeyText("", key, "", "") + J.StringText(cs) + "}")
  {
    hide J.StringOk, J.StringText, J.KeyText, J.CharsText;
    var v := J.Str(cs);
    var ms := J.Member("", key, "", "", v, "", J.NoMembers);
    assert J.Text(v) == J.StringText(cs);
    assert J.MembersText(ms) == J.KeyText("", key, "", "") + J.StringText(cs);
    assert J.Text(J.Obj("", ms)) == "{" + J.KeyText("", key, "", "") + J.StringText(cs) + "}";
    assert J.MembersDerive(J.NoMembers) && J.Derives(v);
    assert J.Derives(J.Obj("", ms));
  }

  lemma ResultKey(key: seq<J.JChar>)
    requires key == [J.Plain('r'), J.Plain('e'), J.Plain('s'), J.Plain('u'), J.Plain('l'), J.Plain('t')]
    ensures J.StringOk(key) && J.KeyText("", key, "", "") == "\"result\":"
  {
    assert J.CharsText(key[5..]) == "t";
    assert key[4..][1..] == key[5..];
    assert J.CharsText(key[4..]) == "lt";
    assert key[3..][1..] == key[4..];
    assert J.CharsText(key[3..]) == "ult";
    assert key[2..][1..] == key[3..];
    assert J.CharsText(key[2..]) == "sult";
    assert key[1..][1..] == key[2..];
    assert J.CharsText(key[1..]) == "esult";
    assert J.CharsText(key) == "result";
  }

  // ---------------------------------------------------------------------
  // The call-id index
  // ---------------------------------------------------------------------

  // Every tool call of the conversation, in order.
  function Calls(msgs: seq<Message>): seq<ToolCall> {
    if msgs == [] then [] else Calls(msgs[..|msgs| - 1]) + msgs[|msgs| - 1].toolCalls
  }

  predicate Named(tc: ToolCall) { tc.id != "" && tc.name != "" }

  function IndexOf(calls: seq<ToolCall>): map<string, string> {
    if calls == [] then map[]
    else
      var tc := calls[|calls| - 1];
      var idx := IndexOf(calls[..|calls| - 1]);
      if Named(tc) then idx[tc.id := tc.name] else idx
  }

  lemma IndexStep(before: seq<ToolCall>, calls: seq<ToolCall>, k: nat)
    requires k < |calls|
    ensures IndexOf(before + calls[..k + 1])
         == if Named(calls[k]) then IndexOf(before + calls[..k])[calls[k].id := calls[k].name] else IndexOf(before + calls[..k])
  {
    assert (before + calls[..k + 1])[..|before| + k] == before + calls[..k];
  }

  lemma CallsStep(msgs: seq<Message>, i: nat)
    requires i < |msgs|
    ensures Calls(msgs[..i + 1]) == Calls(msgs[..i]) + msgs[i].toolCalls
  {
    assert msgs[..i + 1][..i] == msgs[..i];
  }

  method BuildToolCallIDIndex(msgs: seq<Message>) returns (idx: map<string, string>)
    ensures idx == IndexOf(Calls(msgs))
  {
    hide Calls, IndexOf;
    idx := map[];
    assert IndexOf(Calls([])) == map[] by { NoCalls(); }
    for i := 0 to |msgs|
      invariant idx == IndexOf(Calls(msgs[..i]))
    {
      var calls := msgs[i].toolCalls;
      ghost var before := Calls(msgs[..i]);
      CallsStep(msgs, i);
      assert before + calls[..0] == before;
      for k := 0 to |calls|
        invariant idx == IndexOf(before + calls[..k])
      {
        IndexStep(before, calls, k);
        var tc := calls[k];
        if tc.id != "" && tc.name != "" {
          idx := idx[tc.id := tc.name];
        }
      }
      assert calls[..|calls|] == calls;
    }
    assert msgs[..|msgs|] == msgs;
  }

  lemma NoCalls()
    ensures IndexOf(Calls([])) == map[]
  {
  }

  function NameFor(idx: map<string, string>, id: string): string {
    if id in idx then idx[id] else id
  }

  // Calls that share an id share the name.
  ghost predicate Coherent(calls: seq<ToolCall>) {
    forall i, j :: 0 <= i < |calls| && 0 <= j < |calls| && Named(calls[i]) && Named(calls[j]) && calls[i].id == calls[j].id
      ==> calls[i].name == calls[j].name
  }

  // The index holds the name of the last call made under the id.
  lemma {:induction false} IndexIsLast(calls: seq<ToolCall>, id: string)
    ensures id in IndexOf(calls) <==> exists k :: 0 <= k < |calls| && Named(calls[k]) && calls[k].id == id
    ensures id in IndexOf(calls) ==>
              exists k :: 0 <= k < |calls| && Named(calls[k]) && calls[k].id == id && IndexOf(calls)[id] == calls[k].name
                && forall j :: k < j < |calls| && Named(calls[j]) ==> calls[j].id != id
  {
    if calls != [] {
      var n := |calls| - 1;
      IndexIsLast(calls[..n], id);
      var tc := calls[n];
      if Named(tc) && tc.id == id {
      } else if id in IndexOf(calls[..n]) {
        var k :| 0 <= k < n && Named(calls[..n][k]) && calls[..n][k].id == id && IndexOf(calls[..n])[id] == calls[..n][k].name
          && forall j :: k < j < n && Named(calls[..n][j]) ==> calls[..n][j].id != id;
        assert calls[k] == calls[..n][k];
        forall j | k < j < |calls| && Named(calls[j]) ensures calls[j].id != id {
          if j < n { assert calls[j] == calls[..n][j]; }
        }
      } else {
        forall k | 0 <= k < |calls| && Named(calls[k]) ensures calls[k].id != id {
          if k < n { assert calls[k] == calls[..n][k]; }
        }
      }
    }
  }

  // A response is named after the function called, for every call, exactly in coherent conversations.
  lemma NamesFaithful(calls: seq<ToolCall>)
    ensures Coherent(calls)
       <==> forall k :: 0 <= k < |calls| && Named(calls[k]) ==> NameFor(IndexOf(calls), calls[k].id) == calls[k].name
  {
    forall k | 0 <= k < |calls| && Named(calls[k])
      ensures calls[k].id in IndexOf(calls)
      ensures Coherent(calls) ==> NameFor(IndexOf(calls), calls[k].id) == calls[k].name
    {
      IndexIsLast(calls, calls[k].id);
    }
  }

  // A response to a call nobody made is named by its id.
  lemma UnknownNamed(calls: seq<ToolCall>, id: string)
    requires forall k :: 0 <= k < |calls| && Named(calls[k]) ==> calls[k].id != id
    ensures NameFor(IndexOf(calls), id) == id
  {
    IndexIsLast(calls, id);
  }

  // Ids of the kind ParseGoogleResponse makes, for names without the separator.
  ghost predicate GoogleMade(tc: ToolCall) {
    tc.name != "" && Lacks(tc.name, SEP) && exists sig :: tc.id == SignatureID(tc.name, sig)
  }

  lemma GoogleMadeCoherent(calls: seq<ToolCall>)
    requires forall k :: 0 <= k < |calls| ==> GoogleMade(calls[k])
    ensures Coherent(calls)
  {
    forall i, j | 0 <= i < |calls| && 0 <= j < |calls| && calls[i].id == calls[j].id ensures calls[i].name == calls[j].name {
      var a :| calls[i].id == SignatureID(calls[i].name, a);
      var b :| calls[j].id == SignatureID(calls[j].name, b);
      SignatureTellsName(calls[i].name, a, calls[j].name, b);
    }
  }

  // ---------------------------------------------------------------------
  // One message, one turn
  // ---------------------------------------------------------------------

  predicate HasText(blocks: seq<ContentBlock>) { exists i :: 0 <= i < |blocks| && blocks[i].kind == "text" }

  function NormalizeContentBlocks(m: Message): seq<ContentBlock> {
    if m.blocks == [] then []
    else if !HasText(m.blocks) && m.content != "" then [ContentBlock("text", m.content, "", "")] + m.blocks
    else m.blocks
  }

  function BlockParts(blocks: seq<ContentBlock>): seq<Part> {
    if blocks == [] then []
    else
      var b := blocks[|blocks| - 1];
      BlockParts(blocks[..|blocks| - 1])
      + (if b.kind == "text" then [TextPart(b.text)]
         else if b.kind == "image" then [Part("", Some(InlineData(b.mediaType, b.image)), None, None, false, "")]
         else [])
  }

  function CallPart(tc: ToolCall): Part {
    Part("", None, Some(FunctionCall(tc.name, tc.input)), None, false, SignatureFromID(tc.id))
  }

  function CallParts(calls: seq<ToolCall>): seq<Part> {
    seq(|calls|, i requires 0 <= i < |calls| => CallPart(calls[i]))
  }

  function ResponsePart(m: Message, idx: map<string, string>, codec: Codec): Part {
    Part("", None, None, Some(FunctionResponse(NameFor(idx, m.toolCallID), Payload(m.content, codec))), false, "")
  }

  function PartsOf(m: Message, idx: map<string, string>, codec: Codec): seq<Part> {
    if m.role == "user" then
      var blocks := NormalizeContentBlocks(m);
      if blocks != [] then BlockParts(blocks) else if m.content != "" then [TextPart(m.content)] else []
    else if m.role == "assistant" then
      (if m.content != "" then [TextPart(m.content)] else []) + CallParts(m.toolCalls)
    else if m.role == "tool" then [ResponsePart(m, idx, codec)]
    else [TextPart(m.content)]
  }

  function RoleOf(m: Message): string { if m.role == "assistant" then "model" else "user" }

  function Turn(m: Message, idx: map<string, string>, codec: Codec): Content {
    Content(RoleOf(m), PartsOf(m, idx, codec))
  }

  // A part that carries a text, or a call, and nothing else.
  predicate OnlyText(p: Part, text: string) { p.text == text && p.inline == None && p.call == None && p.response == None && !p.thought }

  predicate OnlyCall(p: Part, tc: ToolCall) {
    && p.call == Some(FunctionCall(tc.name, tc.input)) && p.text == "" && p.inline == None && p.response == None && !p.thought
    && p.signature == SignatureFromID(tc.id)
  }

  // Only the assistant speaks as the model. It says its content, if any, and then makes its calls in order; its
  // reasoning is not sent. A user says the blocks, behind the content when none of them is text, or the content alone;
  // a tool's result is one response; anybody else says the content.
  predicate Says(m: Message, turn: Content) {
    && turn.role == (if m.role == "assistant" then "model" else "user")
    && (m.role == "assistant" ==>
          var lead := |turn.parts| - |m.toolCalls|;
          && lead == (if m.content != "" then 1 else 0)
          && (lead == 1 ==> OnlyText(turn.parts[0], m.content))
          && forall k :: 0 <= k < |m.toolCalls| ==> OnlyCall(turn.parts[lead + k], m.toolCalls[k]))
    && (m.role == "user" && m.blocks == [] ==>
          if m.content == "" then turn.parts == [] else |turn.parts| == 1 && OnlyText(turn.parts[0], m.content))
    && (m.role == "user" && m.blocks != [] ==>
          var alone := m.content == "" || exists i :: 0 <= i < |m.blocks| && m.blocks[i].kind == "text";
          turn.parts == (if alone then [] else [TextPart(m.content)]) + BlockParts(m.blocks))
    && (m.role == "tool" ==> |turn.parts| == 1 && turn.parts[0].response.Some?)
    && (m.role != "assistant" && m.role != "user" && m.role != "tool" ==> |turn.parts| == 1 && OnlyText(turn.parts[0], m.content))
  }

  lemma TurnSays(m: Message, idx: map<string, string>, codec: Codec)
    ensures Says(m, Turn(m, idx, codec))
  {
    hide Payload, NameFor;
    if m.role == "user" && m.blocks != [] {
      hide BlockParts;
      var first := ContentBlock("text", m.content, "", "");
      TextBlock(m.content);
      BlockPartsConcat([first], m.blocks);
      assert [] + BlockParts(m.blocks) == BlockParts(m.blocks);
    }
  }

  lemma TextBlock(text: string)
    ensures BlockParts([ContentBlock("text", text, "", "")]) == [TextPart(text)]
  {
    assert [ContentBlock("text", text, "", "")][..0] == [];
  }

  lemma {:induction false} BlockPartsConcat(a: seq<ContentBlock>, b: seq<ContentBlock>)
    ensures BlockParts(a + b) == BlockParts(a) + BlockParts(b)
  {
    if b == [] {
      assert a + b == a;
    } else {
      assert (a + b)[..|a + b| - 1] == a + b[..|b| - 1];
      BlockPartsConcat(a, b[..|b| - 1]);
    }
  }

  // Block by block, a text gives a text, an image its data, and anything else nothing.
  lemma BlocksRendered(a: seq<ContentBlock>, b: ContentBlock, c: seq<ContentBlock>) returns (parts: seq<Part>)
    ensures BlockParts(a + [b] + c) == BlockParts(a) + parts + BlockParts(c)
    ensures b.kind == "text" ==> |parts| == 1 && OnlyText(parts[0], b.text)
    ensures b.kind == "image" ==>
      |parts| == 1 && parts[0].inline == Some(InlineData(b.mediaType, b.image)) && parts[0].text == "" && parts[0].call == None
    ensures b.kind != "text" && b.kind != "image" ==> parts == []
  {
    parts := BlockParts([b]);
    assert [b][..0] == [];
    hide BlockParts;
    BlockPartsConcat(a + [b], c);
    BlockPartsConcat(a, [b]);
  }

  method ConvertGoogleMessage(m: Message, idx: map<string, string>, codec: Codec) returns (turn: Content)
    ensures turn == Turn(m, idx, codec) && Says(m, turn)
  {
    TurnSays(m, idx, codec);
    hide Says;
    var parts: seq<Part> := [];
    if m.role == "user" {
      var blocks := NormalizeContentBlocks(m);
      if blocks != [] {
        for i := 0 to |blocks|
          invariant parts == BlockParts(blocks[..i])
        {
          assert blocks[..i + 1][..i] == blocks[..i];
          var b := blocks[i];
          if b.kind == "text" {
            parts := parts + [TextPart(b.text)];
          } else if b.kind == "image" {
            parts := parts + [Part("", Some(InlineData(b.mediaType, b.image)), None, None, false, "")];
          }
        }
        assert blocks[..|blocks|] == blocks;
      } else if m.content != "" {
        parts := [TextPart(m.content)];
      }
      return Content("user", parts);
    } else if m.role == "assistant" {
      if m.content != "" {
        parts := [TextPart(m.content)];
      }
      ghost var lead := parts;
      for i := 0 to |m.toolCalls|
        invariant parts == lead + CallParts(m.toolCalls[..i])
      {
        assert CallParts(m.toolCalls[..i + 1]) == CallParts(m.toolCalls[..i]) + [CallPart(m.toolCalls[i])];
        parts := parts + [CallPart(m.toolCalls[i])];
      }
      assert m.toolCalls[..|m.toolCalls|] == m.toolCalls;
      return Content("model", parts);
    } else if m.role == "tool" {
      return Content("user", [ResponsePart(m, idx, codec)]);
    } else {
      return Content("user", [TextPart(m.content)]);
    }
  }

  // ---------------------------------------------------------------------
  // Bundling
  // ---------------------------------------------------------------------

  predicate Tool(m: Message) { m.role == "tool" }

  predicate AllTools(msgs: seq<Message>) { forall i :: 0 <= i < |msgs| ==> Tool(msgs[i]) }

  // Nothing to render.
  predicate Empty(m: Message) {
    m.content == "" && m.blocks == [] && m.toolCallID == "" && (Tool(m) || m.toolCalls == [])
  }

  // How many tool results stand in front.
  function RunLength(msgs: seq<Message>): (n: nat)
    ensures n <= |msgs| && AllTools(msgs[..n]) && (n < |msgs| ==> !Tool(msgs[n]))
  {
    if msgs == [] || !Tool(msgs[0]) then 0
    else
      var n := RunLength(msgs[1..]);
      assert forall i :: 0 < i < n + 1 ==> msgs[i] == msgs[1..][i - 1];
      n + 1
  }

  function Responses(run: seq<Message>, idx: map<string, string>, codec: Codec): seq<Part> {
    if run == [] then []
    else
      var m := run[|run| - 1];
      Responses(run[..|run| - 1], idx, codec) + (if Empty(m) then [] else [ResponsePart(m, idx, codec)])
  }

  function Bundle(run: seq<Message>, idx: map<string, string>, codec: Codec): seq<Content> {
    var parts := Responses(run, idx, codec);
    if parts == [] then [] else [Content("user", parts)]
  }

  function Single(m: Message, idx: map<string, string>, codec: Codec): seq<Content> {
    if Empty(m) then [] else [Turn(m, idx, codec)]
  }

  function Turns(msgs: seq<Message>, idx: map<string, string>, codec: Codec): seq<Content>
    decreases |msgs|
  {
    if msgs == [] then []
    else if Tool(msgs[0]) then
      var n := RunLength(msgs);
      Bundle(msgs[..n], idx, codec) + Turns(msgs[n..], idx, codec)
    else Single(msgs[0], idx, codec) + Turns(msgs[1..], idx, codec)
  }

  lemma {:induction false} RunUnique(msgs: seq<Message>, n: nat)
    requires n <= |msgs| && AllTools(msgs[..n]) && (n < |msgs| ==> !Tool(msgs[n]))
    ensures RunLength(msgs) == n
  {
  }

  lemma TurnsOfRun(run: seq<Message>, rest: seq<Message>, idx: map<string, string>, codec: Codec)
    requires AllTools(run) && run != [] && (rest == [] || !Tool(rest[0]))
    ensures Turns(run + rest, idx, codec) == Bundle(run, idx, codec) + Turns(rest, idx, codec)
  {
    hide Bundle, Single;
    var msgs := run + rest;
    assert msgs[..|run|] == run && msgs[|run|..] == rest && Tool(msgs[0]);
    RunUnique(msgs, |run|);
  }

  lemma TurnsOfOther(m: Message, rest: seq<Message>, idx: map<string, string>, codec: Codec)
    requires !Tool(m)
    ensures Turns([m] + rest, idx, codec) == Single(m, idx, codec) + Turns(rest, idx, codec)
  {
    hide Bundle, Single;
    assert ([m] + rest)[1..] == rest;
  }

  // Turns distribute over every cut that does not split a run of tool results.
  lemma {:induction false} TurnsConcat(a: seq<Message>, b: seq<Message>, idx: map<string, string>, codec: Codec)
    requires a == [] || b == [] || !Tool(a[|a| - 1]) || !Tool(b[0])
    ensures Turns(a + b, idx, codec) == Turns(a, idx, codec) + Turns(b, idx, codec)
    decreases |a|
  {
    hide Bundle, Single, Turns, RunLength;
    if a == [] {
      assert a + b == b;
      TurnsOfNone(idx, codec);
    } else if Tool(a[0]) {
      var n := RunLength(a);
      var run, rest := a[..n], a[n..];
      Regroup(run, rest, a, b);
      TurnsOfRun(run, rest, idx, codec);
      TurnsOfRun(run, rest + b, idx, codec);
      TurnsConcat(rest, b, idx, codec);
      Regroup(Bundle(run, idx, codec), Turns(rest, idx, codec), Turns(a, idx, codec), Turns(b, idx, codec));
    } else {
      var m, rest := a[0], a[1..];
      Regroup([m], rest, a, b);
      TurnsOfOther(m, rest, idx, codec);
      TurnsOfOther(m, rest + b, idx, codec);
      TurnsConcat(rest, b, idx, codec);
      Regroup(Single(m, idx, codec), Turns(rest, idx, codec), Turns(a, idx, codec), Turns(b, idx, codec));
    }
  }

  lemma Regroup<T>(x: seq<T>, y: seq<T>, xy: seq<T>, z: seq<T>)
    requires xy == x + y
    ensures xy + z == x + (y + z)
  {
  }

  lemma TurnsOfNone(idx: map<string, string>, codec: Codec)
    ensures Turns([], idx, codec) == []
  {
  }

  // A maximal run of tool results becomes one turn, at its place in the conversation.
  lemma RunBecomesOneTurn(a: seq<Message>, run: seq<Message>, b: seq<Message>, idx: map<string, string>, codec: Codec)
    requires AllTools(run) && run != [] && (a == [] || !Tool(a[|a| - 1])) && (b == [] || !Tool(b[0]))
    ensures var answers := Responses(run, idx, codec);
            Turns(a + run + b, idx, codec)
            == Turns(a, idx, codec) + (if answers == [] then [] else [Content("user", answers)]) + Turns(b, idx, codec)
  {
    hide Turns, Responses;
    TurnsConcat(a + run, b, idx, codec);
    TurnsConcat(a, run, idx, codec);
    TurnsOfRunAlone(run, idx, codec);
  }

  lemma TurnsOfRunAlone(run: seq<Message>, idx: map<string, string>, codec: Codec)
    requires AllTools(run) && run != []
    ensures Turns(run, idx, codec) == Bundle(run, idx, codec)
  {
    hide Bundle, Turns;
    assert run + [] == run;
    TurnsOfRun(run, [], idx, codec);
    TurnsOfNone(idx, codec);
  }

  // The one part of a tool's result: the name of the function called and the payload.
  predicate Answers(m: Message, idx: map<string, string>, codec: Codec, p: Part) {
    && p.response == Some(FunctionResponse(NameFor(idx, m.toolCallID), Payload(m.content, codec)))
    && p.text == "" && p.inline == None && p.call == None
  }

  lemma {:induction false} ResponsesConcat(a: seq<Message>, b: seq<Message>, idx: map<string, string>, codec: Codec)
    ensures Responses(a + b, idx, codec) == Responses(a, idx, codec) + Responses(b, idx, codec)
  {
    hide Empty, ResponsePart;
    if b == [] {
      assert a + b == a;
    } else {
      assert (a + b)[..|a + b| - 1] == a + b[..|b| - 1];
      ResponsesConcat(a, b[..|b| - 1], idx, codec);
    }
  }

  // A result answers at its place, unless it holds neither content nor blocks nor an id.
  lemma ResultAnswers(a: seq<Message>, m: Message, b: seq<Message>, idx: map<string, string>, codec: Codec)
    returns (parts: seq<Part>)
    requires Tool(m)
    ensures Responses(a + [m] + b, idx, codec) == Responses(a, idx, codec) + parts + Responses(b, idx, codec)
    ensures m.content == "" && m.blocks == [] && m.toolCallID == "" ==> parts == []
    ensures m.content != "" || m.blocks != [] || m.toolCallID != "" ==> |parts| == 1 && Answers(m, idx, codec, parts[0])
  {
    hide NameFor, Payload;
    parts := Responses([m], idx, codec);
    assert [m][..0] == [];
    hide Responses;
    ResponsesConcat(a + [m], b, idx, codec);
    ResponsesConcat(a, [m], idx, codec);
  }

  // Any other message becomes a turn of its own, at its place; only one without content, blocks, calls and id is left out.
  lemma MessageBecomesOneTurn(a: seq<Message>, m: Message, b: seq<Message>, idx: map<string, string>, codec: Codec)
    requires !Tool(m)
    ensures Turns(a + [m] + b, idx, codec) == Turns(a, idx, codec) + Single(m, idx, codec) + Turns(b, idx, codec)
    ensures Single(m, idx, codec)
         == if m.content == "" && m.blocks == [] && m.toolCalls == [] && m.toolCallID == "" then [] else [Turn(m, idx, codec)]
  {
    hide Turn, Turns;
    TurnsConcat(a + [m], b, idx, codec);
    TurnsConcat(a, [m], idx, codec);
    assert [m] + [] == [m];
    TurnsOfOther(m, [], idx, codec);
    TurnsOfNone(idx, codec);
  }

  // What every message contributes, in conversation order.
  function Emitted(msgs: seq<Message>, idx: map<string, string>, codec: Codec): seq<Part> {
    if msgs == [] then []
    else (if Empty(msgs[0]) then [] else PartsOf(msgs[0], idx, codec)) + Emitted(msgs[1..], idx, codec)
  }

  function Flatten(turns: seq<Content>): seq<Part> {
    if turns == [] then [] else turns[0].parts + Flatten(turns[1..])
  }

  lemma {:induction false} FlattenConcat(a: seq<Content>, b: seq<Content>)
    ensures Flatten(a + b) == Flatten(a) + Flatten(b)
  {
    if a == [] {
      assert a + b == b;
    } else {
      assert (a + b)[1..] == a[1..] + b;
      FlattenConcat(a[1..], b);
    }
  }

  lemma {:induction false} EmittedConcat(a: seq<Message>, b: seq<Message>, idx: map<string, string>, codec: Codec)
    ensures Emitted(a + b, idx, codec) == Emitted(a, idx, codec) + Emitted(b, idx, codec)
  {
    hide PartsOf, Empty;
    if a == [] {
      assert a + b == b;
    } else {
      assert (a + b)[1..] == a[1..] + b;
      EmittedConcat(a[1..], b, idx, codec);
    }
  }

  lemma {:induction false} ResponsesEmitted(run: seq<Message>, idx: map<string, string>, codec: Codec)
    requires AllTools(run)
    ensures Responses(run, idx, codec) == Emitted(run, idx, codec)
  {
    hide ResponsePart, Empty;
    if run != [] {
      var n := |run| - 1;
      assert run == run[..n] + [run[n]];
      ResponsesEmitted(run[..n], idx, codec);
      EmittedConcat(run[..n], [run[n]], idx, codec);
      assert Emitted([], idx, codec) == [];
      assert Tool(run[n]);
    }
  }

  // Grouping only draws the turn borders: no part is lost, repeated or moved.
  lemma {:induction false} OrderKept(msgs: seq<Message>, idx: map<string, string>, codec: Codec)
    ensures Flatten(Turns(msgs, idx, codec)) == Emitted(msgs, idx, codec)
    decreases |msgs|
  {
    hide PartsOf, Empty, Responses;
    if msgs == [] {
    } else if Tool(msgs[0]) {
      var n := RunLength(msgs);
      ResponsesEmitted(msgs[..n], idx, codec);
      OrderKept(msgs[n..], idx, codec);
      EmittedConcat(msgs[..n], msgs[n..], idx, codec);
      assert msgs[..n] + msgs[n..] == msgs;
      FlattenConcat(Bundle(msgs[..n], idx, codec), Turns(msgs[n..], idx, codec));
      assert Flatten([]) == [];
    } else {
      OrderKept(msgs[1..], idx, codec);
      FlattenConcat(Single(msgs[0], idx, codec), Turns(msgs[1..], idx, codec));
      assert Flatten([]) == [];
    }
  }

  // ---------------------------------------------------------------------
  // The request
  // ---------------------------------------------------------------------

  function Spoken(msgs: seq<Message>): seq<Message> {
    if msgs == [] then []
    else Spoken(msgs[..|msgs| - 1]) + (if msgs[|msgs| - 1].role == "system" then [] else [msgs[|msgs| - 1]])
  }

  function SystemTexts(msgs: seq<Message>): seq<string> {
    if msgs == [] then []
    else SystemTexts(msgs[..|msgs| - 1]) + (if msgs[|msgs| - 1].role == "system" then [msgs[|msgs| - 1].content] else [])
  }

  // From the first non-empty text on.
  function FromFirst(texts: seq<string>): seq<string> {
    if texts == [] then [] else if texts[0] == "" then FromFirst(texts[1..]) else texts
  }

  lemma {:induction false} FromFirstSnoc(texts: seq<string>, t: string)
    ensures FromFirst(texts) == [] ==> FromFirst(texts + [t]) == if t == "" then [] else [t]
    ensures FromFirst(texts) != [] ==> FromFirst(texts + [t]) == FromFirst(texts) + [t] && FromFirst(texts)[0] != ""
  {
    if texts != [] {
      assert (texts + [t])[1..] == texts[1..] + [t];
      FromFirstSnoc(texts[1..], t);
    }
  }

  lemma {:induction false} JoinSnoc(parts: seq<string>, t: string, sep: char)
    requires parts != []
    ensures Join(parts + [t], sep) == Join(parts, sep) + [sep] + t
  {
    JoinTake(parts + [t], |parts|, sep);
    assert (parts + [t])[..|parts|] == parts && (parts + [t])[|parts|..] == [t];
  }

  lemma JoinEmpty(parts: seq<string>, sep: char)
    requires parts == [] || parts[0] != ""
    ensures Join(parts, sep) == "" <==> parts == []
  {
  }

  method ExtractSystemPrompt(msgs: seq<Message>) returns (system: string, filtered: seq<Message>)
    ensures system == Join(FromFirst(SystemTexts(msgs)), '\n')
    ensures filtered == Spoken(msgs)
  {
    hide Join;
    system, filtered := "", [];
    JoinEmpty([], '\n');
    for i := 0 to |msgs|
      invariant system == Join(FromFirst(SystemTexts(msgs[..i])), '\n')
      invariant filtered == Spoken(msgs[..i])
    {
      assert msgs[..i + 1][..i] == msgs[..i];
      var m := msgs[i];
      ghost var texts := SystemTexts(msgs[..i]);
      assert texts + [] == texts;
      if m.role == "system" {
        SystemStep(texts, m.content);
        if system != "" {
          system := system + "\n";
        }
        system := system + m.content;
        continue;
      }
      filtered := filtered + [m];
    }
    assert msgs[..|msgs|] == msgs;
  }

  lemma SystemStep(texts: seq<string>, t: string)
    ensures var was := Join(FromFirst(texts), '\n');
            Join(FromFirst(texts + [t]), '\n') == (if was != "" then was + "\n" else was) + t
  {
    FromFirstSnoc(texts, t);
    var f := FromFirst(texts);
    JoinEmpty(f, '\n');
    if f != [] {
      JoinSnoc(f, t, '\n');
    }
  }

  // The system prompt takes the system messages, and the turns all others, in order.
  lemma {:induction false} Divided(a: seq<Message>, b: seq<Message>, m: Message)
    ensures Spoken(a + b) == Spoken(a) + Spoken(b) && SystemTexts(a + b) == SystemTexts(a) + SystemTexts(b)
    ensures Spoken([m]) == (if m.role == "system" then [] else [m])
    ensures SystemTexts([m]) == (if m.role == "system" then [m.content] else [])
  {
    assert [m][..0] == [];
    if b == [] {
      assert a + b == a;
    } else {
      assert (a + b)[..|a + b| - 1] == a + b[..|b| - 1];
      Divided(a, b[..|b| - 1], m);
    }
  }

  // Only empty texts in front are left out.
  lemma {:induction false} FromFirstMeans(texts: seq<string>) returns (k: nat)
    ensures k <= |texts| && FromFirst(texts) == texts[k..]
    ensures (forall i :: 0 <= i < k ==> texts[i] == "") && (k < |texts| ==> texts[k] != "")
  {
    k := 0;
    if texts != [] && texts[0] == "" {
      var j := FromFirstMeans(texts[1..]);
      k := j + 1;
      assert texts[1..][j..] == texts[k..];
      assert forall i :: 0 < i < k ==> texts[i] == texts[1..][i - 1];
    }
  }

  lemma Moved<T>(done: seq<T>, turns: seq<T>, rest: seq<T>)
    ensures done + (turns + rest) == (done + turns) + rest
    ensures done + ([] + rest) == done + rest
  {
  }

  method BuildGoogleRequest(msgs: seq<Message>, codec: Codec) returns (req: Request)
    ensures req.system == Join(FromFirst(SystemTexts(msgs)), '\n')
    ensures req.contents == Turns(Spoken(msgs), IndexOf(Calls(Spoken(msgs))), codec)
  {
    hide Turns, Turn, Empty, ResponsePart, Calls, IndexOf, SystemTexts, Spoken, FromFirst, Join;
    var system, filtered := ExtractSystemPrompt(msgs);
    var idx := BuildToolCallIDIndex(filtered);
    var contents: seq<Content> := [];
    var i := 0;
    while i < |filtered|
      invariant 0 <= i <= |filtered|
      invariant contents + Turns(filtered[i..], idx, codec) == Turns(filtered, idx, codec)
    {
      var m := filtered[i];
      if m.role == "tool" {
        ghost var start := i;
        var parts: seq<Part> := [];
        while i < |filtered| && filtered[i].role == "tool"
          invariant start <= i <= |filtered|
          invariant AllTools(filtered[start..i])
          invariant parts == Responses(filtered[start..i], idx, codec)
          invariant i == start ==> Tool(filtered[i])
        {
          var tm := filtered[i];
          assert filtered[start..i + 1][..i - start] == filtered[start..i];
          i := i + 1;
          if Empty(tm) {
            continue;
          }
          parts := parts + [ResponsePart(tm, idx, codec)];
        }
        assert filtered[start..] == filtered[start..i] + filtered[i..];
        TurnsOfRun(filtered[start..i], filtered[i..], idx, codec);
        Moved(contents, Bundle(filtered[start..i], idx, codec), Turns(filtered[i..], idx, codec));
        if |parts| > 0 {
          contents := contents + [Content("user", parts)];
        }
        continue;
      }
      assert filtered[i..] == [m] + filtered[i + 1..];
      TurnsOfOther(m, filtered[i + 1..], idx, codec);
      Moved(contents, Single(m, idx, codec), Turns(filtered[i + 1..], idx, codec));
      if Empty(m) {
        i := i + 1;
        continue;
      }
      var turn := ConvertGoogleMessage(m, idx, codec);
      contents := contents + [turn];
      i := i + 1;
    }
    TurnsOfNone(idx, codec);
    req := Request(system, contents);
  }

  // ---------------------------------------------------------------------
  // Answers and empty turns
  // ---------------------------------------------------------------------

  lemma {:induction false} CallsConcat(a: seq<Message>, b: seq<Message>)
    ensures Calls(a + b) == Calls(a) + Calls(b)
  {
    if b == [] {
      assert a + b == a;
    } else {
      var n := |b| - 1;
      assert (a + b)[..|a + b| - 1] == a + b[..n];
      CallsConcat(a, b[..n]);
    }
  }

  lemma {:induction false} ResponsesAt(run: seq<Message>, k: nat, idx: map<string, string>, codec: Codec)
    requires k < |run| && forall i :: 0 <= i < |run| ==> !Empty(run[i])
    ensures |Responses(run, idx, codec)| == |run| && Responses(run, idx, codec)[k] == ResponsePart(run[k], idx, codec)
  {
    hide ResponsePart, Empty;
    var n := |run| - 1;
    if n == 0 {
      assert run[..0] == [];
    } else {
      ResponsesAt(run[..n], if k < n then k else 0, idx, codec);
    }
  }

  // A turn of n calls followed by their n results is answered by one turn of exactly n responses,
  // the k-th named after the k-th function called.
  lemma CallsAnswered(a: seq<Message>, m: Message, results: seq<Message>, b: seq<Message>, codec: Codec)
    requires m.role == "assistant" && m.toolCalls != [] && |results| == |m.toolCalls| && AllTools(results)
    requires forall k :: 0 <= k < |results| ==> Named(m.toolCalls[k]) && results[k].toolCallID == m.toolCalls[k].id
    requires b == [] || !Tool(b[0])
    requires Coherent(Calls(a + [m] + results + b))
    ensures var idx := IndexOf(Calls(a + [m] + results + b));
            exists answers: seq<Part> ::
              && Turns(a + [m] + results + b, idx, codec)
                 == Turns(a, idx, codec) + [Turn(m, idx, codec), Content("user", answers)] + Turns(b, idx, codec)
              && |answers| == |m.toolCalls|
              && forall k :: 0 <= k < |answers| ==>
                   answers[k].response == Some(FunctionResponse(m.toolCalls[k].name, Payload(results[k].content, codec)))
  {
    hide Turn, Turns, IndexOf, Payload, Calls, Coherent, Responses;
    var all := a + [m] + results + b;
    var idx := IndexOf(Calls(all));
    CallThenResults(a, m, results, b, idx, codec);
    var answers := Responses(results, idx, codec);
    forall k | 0 <= k < |results|
      ensures |answers| == |results|
      ensures answers[k].response == Some(FunctionResponse(m.toolCalls[k].name, Payload(results[k].content, codec)))
    {
      CallAmong(a, m, results, b, k);
      AnswerNamed(Calls(all), m.toolCalls[k], results, k, codec);
    }
  }

  // The turns themselves.
  lemma CallThenResults(a: seq<Message>, m: Message, results: seq<Message>, b: seq<Message>, idx: map<string,
      string>, codec: Codec)
    requires m.role == "assistant" && m.toolCalls != [] && |results| == |m.toolCalls| && AllTools(results)
    requires forall k :: 0 <= k < |results| ==> Named(m.toolCalls[k]) && results[k].toolCallID == m.toolCalls[k].id
    requires b == [] || !Tool(b[0])
    ensures Turns(a + [m] + results + b, idx, codec)
         == Turns(a, idx, codec) + [Turn(m, idx, codec), Content("user", Responses(results, idx, codec))] + Turns(b, idx, codec)
    ensures |Responses(results, idx, codec)| == |results|
  {
    hide Turn, Turns, Responses;
    MessageBecomesOneTurn(a, m, [], idx, codec);
    assert a + [m] + [] == a + [m];
    TurnsOfNone(idx, codec);
    RunBecomesOneTurn(a + [m], results, b, idx, codec);
    AllAnswered(m, results, idx, codec);
  }

  lemma AllAnswered(m: Message, results: seq<Message>, idx: map<string, string>, codec: Codec)
    requires m.toolCalls != [] && |results| == |m.toolCalls| && AllTools(results)
    requires forall k :: 0 <= k < |results| ==> Named(m.toolCalls[k]) && results[k].toolCallID == m.toolCalls[k].id
    ensures |Responses(results, idx, codec)| == |results|
  {
    assert Named(m.toolCalls[0]);
    ResponsesAt(results, 0, idx, codec);
  }

  // The response to a call of a coherent conversation carries its name.
  lemma AnswerNamed(calls: seq<ToolCall>, tc: ToolCall, results: seq<Message>, k: nat, codec: Codec)
    requires Coherent(calls) && tc in calls && Named(tc)
    requires k < |results| && AllTools(results) && results[k].toolCallID == tc.id
    requires forall i :: 0 <= i < |results| ==> results[i].toolCallID != ""
    ensures |Responses(results, IndexOf(calls), codec)| == |results|
    ensures Responses(results, IndexOf(calls), codec)[k].response
         == Some(FunctionResponse(tc.name, Payload(results[k].content, codec)))
  {
    hide IndexOf, Payload, Responses, Coherent;
    ResponsesAt(results, k, IndexOf(calls), codec);
    NamesFaithful(calls);
  }

  lemma CallAmong(a: seq<Message>, m: Message, results: seq<Message>, b: seq<Message>, k: nat)
    requires k < |m.toolCalls|
    ensures m.toolCalls[k] in Calls(a + [m] + results + b)
  {
    CallsConcat(a + [m] + results, b);
    CallsConcat(a + [m], results);
    CallsConcat(a, [m]);
    assert [m][..0] == [];
    assert Calls([m]) == m.toolCalls;
    assert Calls(a + [m] + results + b)[|Calls(a)| + k] == m.toolCalls[k];
  }

  // Something of the message is rendered.
  predicate Renders(m: Message) {
    if m.role == "user" then
      m.content != "" || exists i :: 0 <= i < |m.blocks| && (m.blocks[i].kind == "text" || m.blocks[i].kind == "image")
    else if m.role == "assistant" then m.content != "" || m.toolCalls != []
    else true
  }

  lemma {:induction false} BlockPartsEmpty(blocks: seq<ContentBlock>)
    ensures BlockParts(blocks) == []
       <==> forall i :: 0 <= i < |blocks| ==> blocks[i].kind != "text" && blocks[i].kind != "image"
  {
    if blocks != [] {
      var n := |blocks| - 1;
      BlockPartsEmpty(blocks[..n]);
      assert forall i :: 0 <= i < n ==> blocks[..n][i] == blocks[i];
    }
  }

  lemma TurnRenders(m: Message, idx: map<string, string>, codec: Codec)
    ensures Turn(m, idx, codec).parts != [] <==> Renders(m)
  {
    if m.role == "user" {
      BlockPartsEmpty(m.blocks);
      BlockPartsEmpty(NormalizeContentBlocks(m));
      if m.blocks != [] && m.content != "" && !HasText(m.blocks) {
        assert NormalizeContentBlocks(m)[0].kind == "text";
      }
    }
  }

  predicate NonEmptyTurns(turns: seq<Content>) { forall i :: 0 <= i < |turns| ==> turns[i].parts != [] }

  predicate AllRender(msgs: seq<Message>) {
    forall i :: 0 <= i < |msgs| ==> Tool(msgs[i]) || Empty(msgs[i]) || Renders(msgs[i])
  }

  // No empty turn is sent exactly when every message that is not skipped renders something.
  lemma {:induction false} EmptyTurnsIff(msgs: seq<Message>, idx: map<string, string>, codec: Codec)
    ensures NonEmptyTurns(Turns(msgs, idx, codec)) <==> AllRender(msgs)
    decreases |msgs|
  {
    hide Turns, Turn, Empty, Renders, Responses;
    if msgs == [] {
      TurnsOfNone(idx, codec);
    } else if Tool(msgs[0]) {
      var n := RunLength(msgs);
      assert msgs == msgs[..n] + msgs[n..];
      TurnsOfRun(msgs[..n], msgs[n..], idx, codec);
      EmptyTurnsIff(msgs[n..], idx, codec);
      NonEmptyConcat(Bundle(msgs[..n], idx, codec), Turns(msgs[n..], idx, codec));
      assert AllRender(msgs[..n]);
      AllRenderConcat(msgs[..n], msgs[n..]);
    } else {
      assert msgs == [msgs[0]] + msgs[1..];
      TurnsOfOther(msgs[0], msgs[1..], idx, codec);
      SingleRenders(msgs[0], idx, codec);
      EmptyTurnsIff(msgs[1..], idx, codec);
      NonEmptyConcat(Single(msgs[0], idx, codec), Turns(msgs[1..], idx, codec));
      AllRenderConcat([msgs[0]], msgs[1..]);
    }
  }

  // An empty turn: a user message whose only block is neither text nor image is not skipped.
  lemma EmptyTurnExample(idx: map<string, string>, codec: Codec)
    ensures var m := Message("user", "", [ContentBlock("audio", "", "", "")], "", [], "");
            !Empty(m) && !Renders(m) && !NonEmptyTurns(Turns([m], idx, codec))
  {
    var m := Message("user", "", [ContentBlock("audio", "", "", "")], "", [], "");
    EmptyTurnsIff([m], idx, codec);
    assert !Renders([m][0]);
  }

  lemma SingleRenders(m: Message, idx: map<string, string>, codec: Codec)
    requires !Tool(m)
    ensures NonEmptyTurns(Single(m, idx, codec)) <==> AllRender([m])
  {
    hide Turn, Empty, Renders;
    TurnRenders(m, idx, codec);
    var turn := Turn(m, idx, codec);
    assert NonEmptyTurns([turn]) <==> [turn][0].parts != [];
    assert AllRender([m]) <==> (Empty([m][0]) || Renders([m][0]));
  }

  lemma NonEmptyConcat(a: seq<Content>, b: seq<Content>)
    ensures NonEmptyTurns(a + b) <==> NonEmptyTurns(a) && NonEmptyTurns(b)
  {
    if NonEmptyTurns(a + b) {
      assert forall i :: 0 <= i < |a| ==> a[i] == (a + b)[i];
      assert forall i :: 0 <= i < |b| ==> b[i] == (a + b)[|a| + i];
    }
  }

  lemma AllRenderConcat(a: seq<Message>, b: seq<Message>)
    ensures AllRender(a + b) <==> AllRender(a) && AllRender(b)
  {
    hide Empty, Renders;
    if AllRender(a + b) {
      assert forall i :: 0 <= i < |a| ==> a[i] == (a + b)[i];
      assert forall i :: 0 <= i < |b| ==> b[i] == (a + b)[|a| + i];
    }
  }

  // ---------------------------------------------------------------------
  // Responses
  // ---------------------------------------------------------------------

  // The non-empty texts of one channel.
  function Texts(parts: seq<Part>, thought: bool): seq<string> {
    if parts == [] then []
    else
      var p := parts[|parts| - 1];
      Texts(parts[..|parts| - 1], thought) + (if p.text != "" && p.thought == thought then [p.text] else [])
  }

  function CallOf(p: Part): ToolCall
    requires p.call.Some?
  {
    ToolCall(SignatureID(p.call.value.name, p.signature), p.call.value.name, p.call.value.args)
  }

  function ParsedCalls(parts: seq<Part>): seq<ToolCall> {
    if parts == [] then []
    else
      var p := parts[|parts| - 1];
      ParsedCalls(parts[..|parts| - 1]) + (if p.call.Some? then [CallOf(p)] else [])
  }

  function StopReason(reason: string, hasToolCalls: bool): string {
    if hasToolCalls then "tool_use"
    else if reason == "" || reason == "STOP" || reason == "SAFETY" || reason == "RECITATION" || reason == "OTHER" then "end_turn"
    else if reason == "MAX_TOKENS" then "max_tokens"
    else reason
  }

  function ParsedMessage(parts: seq<Part>): Message {
    Message("assistant", Join(Texts(parts, false), '\n'), [], Join(Texts(parts, true), '\n'), ParsedCalls(parts), "")
  }

  function ParseOf(candidates: seq<Candidate>): Parsed {
    if candidates == [] then NoCandidates
    else
      var m := ParsedMessage(candidates[0].content.parts);
      if m.content == "" && m.toolCalls == [] then NoContent
      else Parsed(Response(m, StopReason(candidates[0].finishReason, m.toolCalls != [])))
  }

  lemma {:induction false} TextsNonEmpty(parts: seq<Part>, thought: bool)
    ensures forall i :: 0 <= i < |Texts(parts, thought)| ==> Texts(parts, thought)[i] != ""
  {
    if parts != [] {
      TextsNonEmpty(parts[..|parts| - 1], thought);
    }
  }

  // One more line of text.
  function AddLine(was: string, t: string): string { (if was != "" then was + "\n" else was) + t }

  lemma TextStep(parts: seq<Part>, p: Part, thought: bool)
    ensures Join(Texts(parts + [p], thought), '\n')
         == if p.text != "" && p.thought == thought then AddLine(Join(Texts(parts, thought), '\n'), p.text)
            else Join(Texts(parts, thought), '\n')
  {
    var ts := Texts(parts, thought);
    assert (parts + [p])[..|parts|] == parts;
    assert ts + [] == ts;
    TextsNonEmpty(parts, thought);
    JoinEmpty(ts, '\n');
    if ts != [] {
      JoinSnoc(ts, p.text, '\n');
    }
  }

  lemma ParseStep(parts: seq<Part>, p: Part)
    ensures var was, now := ParsedMessage(parts), ParsedMessage(parts + [p]);
            && now.content == (if p.text != "" && !p.thought then AddLine(was.content, p.text) else was.content)
            && now.reasoning == (if p.text != "" && p.thought then AddLine(was.reasoning, p.text) else was.reasoning)
            && now.toolCalls == was.toolCalls + if p.call.Some? then [CallOf(p)] else []
  {
    hide Join, Texts, AddLine;
    TextStep(parts, p, true);
    TextStep(parts, p, false);
    assert (parts + [p])[..|parts|] == parts;
  }

  // The lines of the answer and of the reasoning, the calls, and why the model stopped; nothing to go by is an error.
  predicate Understood(parts: seq<Part>, reason: string, r: Parsed) {
    match r
    case Parsed(response) =>
      var m := response.message;
      && m.role == "assistant" && m.blocks == [] && m.toolCallID == ""
      && m.content == Join(Texts(parts, false), '\n') && m.reasoning == Join(Texts(parts, true), '\n')
      && m.toolCalls == ParsedCalls(parts)
      && (m.content != "" || m.toolCalls != [])
      && (m.toolCalls != [] ==> response.stopReason == "tool_use")
      && (m.toolCalls == [] && reason in ["", "STOP", "SAFETY", "RECITATION", "OTHER"] ==> response.stopReason == "end_turn")
      && (m.toolCalls == [] && reason == "MAX_TOKENS" ==> response.stopReason == "max_tokens")
      && (m.toolCalls == [] && reason !in ["", "STOP", "SAFETY", "RECITATION", "OTHER", "MAX_TOKENS"] ==> response.stopReason == reason)
    case NoContent => Texts(parts, false) == [] && ParsedCalls(parts) == []
    case NoCandidates => false
  }

  lemma ParseUnderstood(candidates: seq<Candidate>)
    requires candidates != []
    ensures Understood(candidates[0].content.parts, candidates[0].finishReason, ParseOf(candidates))
  {
    hide Texts, Join, ParsedCalls;
    var parts := candidates[0].content.parts;
    TextsNonEmpty(parts, false);
    JoinEmpty(Texts(parts, false), '\n');
  }

  // Part by part, a text is a line of its channel and a call is made under its signed name.
  lemma {:induction false} PartsUnderstood(a: seq<Part>, b: seq<Part>, p: Part, thought: bool)
    ensures Texts(a + b, thought) == Texts(a, thought) + Texts(b, thought)
    ensures ParsedCalls(a + b) == ParsedCalls(a) + ParsedCalls(b)
    ensures Texts([p], thought) == (if p.text != "" && p.thought == thought then [p.text] else [])
    ensures p.call.None? ==> ParsedCalls([p]) == []
    ensures p.call.Some? ==>
      ParsedCalls([p]) == [ToolCall(SignatureID(p.call.value.name, p.signature), p.call.value.name, p.call.value.args)]
  {
    hide SignatureID;
    assert [p][..0] == [];
    if b == [] {
      assert a + b == a;
    } else {
      assert (a + b)[..|a + b| - 1] == a + b[..|b| - 1];
      PartsUnderstood(a, b[..|b| - 1], p, thought);
    }
  }

  method ParseGoogleResponse(candidates: seq<Candidate>) returns (r: Parsed)
    ensures r == ParseOf(candidates)
    ensures r.NoCandidates? <==> candidates == []
    ensures candidates != [] ==> Understood(candidates[0].content.parts, candidates[0].finishReason, r)
  {
    hide ParsedMessage, StopReason, SignatureID, Understood;
    if candidates != [] {
      ParseUnderstood(candidates);
    }
    if candidates == [] {
      return NoCandidates;
    }
    var parts := candidates[0].content.parts;
    var m, hasToolCalls := Message("assistant", "", [], "", [], ""), false;
    NothingParsed();
    for i := 0 to |parts|
      invariant m == ParsedMessage(parts[..i])
      invariant hasToolCalls == (m.toolCalls != [])
    {
      var p := parts[i];
      assert parts[..i + 1] == parts[..i] + [p];
      ParseStep(parts[..i], p);
      ParsedRest(parts[..i], parts[..i + 1]);
      if p.text != "" {
        if p.thought {
          if m.reasoning != "" {
            m := m.(reasoning := m.reasoning + "\n");
          }
          m := m.(reasoning := m.reasoning + p.text);
        } else {
          if m.content != "" {
            m := m.(content := m.content + "\n");
          }
          m := m.(content := m.content + p.text);
        }
      }
      if p.call.Some? {
        hasToolCalls := true;
        var call := p.call.value;
        m := m.(toolCalls := m.toolCalls + [ToolCall(SignatureID(call.name, p.signature), call.name, call.args)]);
      }
    }
    assert parts[..|parts|] == parts;
    if m.content == "" && !hasToolCalls {
      return NoContent;
    }
    r := Parsed(Response(m, StopReason(candidates[0].finishReason, hasToolCalls)));
  }

  // A thought changes neither the answer nor the calls, wherever it stands; a visible text never reaches the reasoning.
  lemma {:induction false} ThoughtStaysInside(a: seq<Part>, p: Part, b: seq<Part>)
    ensures p.thought ==> ParsedMessage(a + [p] + b).content == ParsedMessage(a + b).content
    ensures !p.thought ==> ParsedMessage(a + [p] + b).reasoning == ParsedMessage(a + b).reasoning
    ensures p.call.None? ==> ParsedMessage(a + [p] + b).toolCalls == ParsedMessage(a + b).toolCalls
  {
    hide ParsedMessage, AddLine;
    if b == [] {
      assert a + [p] + b == a + [p] && a + b == a;
      ParseStep(a, p);
      assert ParsedMessage(a).toolCalls + [] == ParsedMessage(a).toolCalls;
    } else {
      var init, last := b[..|b| - 1], b[|b| - 1];
      ThoughtStaysInside(a, p, init);
      assert a + [p] + b == a + [p] + init + [last] && a + b == a + init + [last];
      ParseStep(a + [p] + init, last);
      ParseStep(a + init, last);
    }
  }

  lemma NothingParsed()
    ensures ParsedMessage([]) == Message("assistant", "", [], "", [], "")
  {
  }

  lemma ParsedRest(before: seq<Part>, after: seq<Part>)
    ensures ParsedMessage(after) == ParsedMessage(before).(
              content := ParsedMessage(after).content, reasoning := ParsedMessage(after).reasoning,
              toolCalls := ParsedMessage(after).toolCalls)
  {
    hide Join, Texts, ParsedCalls;
  }

  // ---------------------------------------------------------------------
  // The round trip
  // ---------------------------------------------------------------------

  // The function-call parts: name, arguments and signature.
  function CallsIn(parts: seq<Part>): seq<(FunctionCall, string)> {
    if parts == [] then []
    else
      var p := parts[|parts| - 1];
      CallsIn(parts[..|parts| - 1]) + (if p.call.Some? then [(p.call.value, p.signature)] else [])
  }

  lemma {:induction false} CallsInConcat(a: seq<Part>, b: seq<Part>)
    ensures CallsIn(a + b) == CallsIn(a) + CallsIn(b)
  {
    if b == [] {
      assert a + b == a;
    } else {
      assert (a + b)[..|a + b| - 1] == a + b[..|b| - 1];
      CallsInConcat(a, b[..|b| - 1]);
    }
  }

  predicate AllCarry(calls: seq<(FunctionCall, string)>) {
    forall i :: 0 <= i < |calls| ==> Carries(calls[i].0.name, calls[i].1)
  }

  lemma {:induction false} CallsReturn(parts: seq<Part>)
    ensures |CallsIn(CallParts(ParsedCalls(parts)))| == |CallsIn(parts)|
    ensures CallsIn(CallParts(ParsedCalls(parts))) == CallsIn(parts) <==> AllCarry(CallsIn(parts))
  {
    hide Carries;
    if parts != [] {
      var init, p := parts[..|parts| - 1], parts[|parts| - 1];
      CallsReturn(init);
      if p.call.Some? {
        var name, sig := p.call.value.name, p.signature;
        SignatureSurvives(name, sig);
        var was, tc := ParsedCalls(init), CallOf(p);
        assert CallParts(was + [tc]) == CallParts(was) + [CallPart(tc)];
        CallsInConcat(CallParts(was), [CallPart(tc)]);
        assert [CallPart(tc)][..0] == [];
        assert CallsIn([CallPart(tc)]) == [(p.call.value, SignatureFromID(tc.id))];
        SnocEq(CallsIn(CallParts(was)), (p.call.value, SignatureFromID(tc.id)), CallsIn(init), (p.call.value, sig));
        AllCarrySnoc(CallsIn(init), (p.call.value, sig));
      } else {
        assert CallsIn(init) + [] == CallsIn(init) && ParsedCalls(init) + [] == ParsedCalls(init);
      }
    }
  }

  lemma SnocEq<T>(a: seq<T>, x: T, b: seq<T>, y: T)
    requires |a| == |b|
    ensures a + [x] == b + [y] <==> a == b && x == y
  {
    if a + [x] == b + [y] {
      assert (a + [x])[..|a|] == a && (b + [y])[..|a|] == b;
      assert (a + [x])[|a|] == x && (b + [y])[|a|] == y;
    }
  }

  lemma AllCarrySnoc(calls: seq<(FunctionCall, string)>, c: (FunctionCall, string))
    ensures AllCarry(calls + [c]) <==> AllCarry(calls) && Carries(c.0.name, c.1)
  {
    if AllCarry(calls + [c]) {
      assert forall i :: 0 <= i < |calls| ==> calls[i] == (calls + [c])[i];
      assert (calls + [c])[|calls|] == c;
    }
  }

  // Replaying a parsed response sends back its function calls, arguments and signatures,
  // exactly when every name carries its signature.
  lemma RoundTrip(candidates: seq<Candidate>, a: seq<Message>, b: seq<Message>, codec: Codec)
    requires ParseOf(candidates).Parsed?
    ensures var m := ParseOf(candidates).response.message;
            var sent := CallsIn(candidates[0].content.parts);
            var msgs := a + [m] + b;
            var idx := IndexOf(Calls(msgs));
            && Turns(msgs, idx, codec) == Turns(a, idx, codec) + [Turn(m, idx, codec)] + Turns(b, idx, codec)
            && (CallsIn(Turn(m, idx, codec).parts) == sent <==> AllCarry(sent))
  {
    hide Turns, IndexOf, Calls, Join, Texts, ParsedCalls, CallParts, AllCarry;
    var parts := candidates[0].content.parts;
    var m := ParseOf(candidates).response.message;
    var idx := IndexOf(Calls(a + [m] + b));
    MessageBecomesOneTurn(a, m, b, idx, codec);
    CallsReturn(parts);
    var lead := if m.content != "" then [TextPart(m.content)] else [];
    CallsInConcat(lead, CallParts(ParsedCalls(parts)));
    LeadHasNoCalls(m.content);
  }

  lemma LeadHasNoCalls(text: string)
    ensures CallsIn(if text != "" then [TextPart(text)] else []) == []
  {
    assert [TextPart(text)][..0] == [];
  }
}
