// Model identifiers: llm/modelid.go and the normalization of llm/modelregistry.go.
module ModelNames {
  import opened Prelude

  // ---------------------------------------------------------------------
  // Composite identifiers
  // ---------------------------------------------------------------------

  // The position of the first c, or the length.
  function IndexByte(s: string, c: char): (i: nat)
    ensures i <= |s| && (i < |s| ==> s[i] == c) && forall k :: 0 <= k < i ==> s[k] != c
  {
    if s == "" then 0 else if s[0] == c then 0 else 1 + IndexByte(s[1..], c)
  }

  function CompositeModelID(provider: string, model: string): string { provider + "/" + model }

  // Provider and bare name, split at the first slash; no provider without one.
  function ParseCompositeModelID(id: string): (string, string, bool) {
    var i := IndexByte(id, '/');
    if i < |id| then (id[..i], id[i + 1..], true) else ("", id, false)
  }

  function BareModel(id: string): string { ParseCompositeModelID(id).1 }

  lemma IndexByteUnique(s: string, c: char, i: nat)
    requires i < |s| && s[i] == c && forall k :: 0 <= k < i ==> s[k] != c
    ensures IndexByte(s, c) == i
  {
  }

  // Parsing undoes composing exactly for providers without a slash.
  lemma ParseComposed(provider: string, model: string)
    ensures ParseCompositeModelID(CompositeModelID(provider, model)) == (provider, model, true)
       <==> IndexByte(provider, '/') == |provider|
  {
    var id := CompositeModelID(provider, model);
    if IndexByte(provider, '/') == |provider| {
      IndexByteUnique(id, '/', |provider|);
      assert id[..|provider|] == provider && id[|provider| + 1..] == model;
    } else {
      var i := IndexByte(provider, '/');
      IndexByteUnique(id, '/', i);
    }
  }

  // ---------------------------------------------------------------------
  // Delivery and quantization postfixes
  // ---------------------------------------------------------------------

  const CORES: seq<string> := [
    "safetensors", "32bit", "16bit", "gguf", "ggml", "onnx", "gptq", "8bit", "6bit", "5bit", "4bit", "3bit", "2bit",
    "awq", "nf4", "mlx"]

  predicate IsSep(c: char) { c == '-' || c == '_' }

  predicate IsDigit(c: char) { '0' <= c <= '9' }

  predicate IsPlain(c: char) { IsDigit(c) || 'a' <= c <= 'z' }

  predicate AllPlain(s: string) { forall i :: 0 <= i < |s| ==> IsPlain(s[i]) }

  predicate AllDigits(s: string) { forall i :: 0 <= i < |s| ==> IsDigit(s[i]) }

  predicate EndsWith(s: string, p: string) { |p| <= |s| && s[|s| - |p|..] == p }

  function Drop(s: string, p: string): string
    requires EndsWith(s, p)
  {
    s[..|s| - |p|]
  }

  // The spellings of one core: after either separator, and with "bit" set off by either.
  function ExpandCore(c: string): seq<string> {
    ["-" + c, "_" + c]
    + (if EndsWith(c, "bit") then
         var w := Drop(c, "bit");
         ["-" + w + "-bit", "-" + w + "_bit", "_" + w + "-bit", "_" + w + "_bit"]
       else [])
  }

  function ExpandAll(cores: seq<string>): seq<string> {
    if cores == [] then [] else ExpandAll(cores[..|cores| - 1]) + ExpandCore(cores[|cores| - 1])
  }

  const POSTFIXES: seq<string> := ExpandAll(CORES)

  method BuildModelIDPostfixes(cores: seq<string>) returns (postfixes: seq<string>)
    ensures postfixes == ExpandAll(cores)
  {
    postfixes := [];
    for i := 0 to |cores|
      invariant postfixes == ExpandAll(cores[..i])
    {
      assert cores[..i + 1][..i] == cores[..i];
      var core := cores[i];
      var spellings := ["-" + core, "_" + core];
      if EndsWith(core, "bit") {
        var prefix := Drop(core, "bit");
        spellings := spellings + ["-" + prefix + "-bit", "-" + prefix + "_bit", "_" + prefix + "-bit", "_" + prefix + "_bit"];
      }
      assert spellings == ExpandCore(core);
      postfixes := postfixes + spellings;
    }
    assert cores[..|cores|] == cores;
  }

  // digits, then nothing, "b" or "bit".
  predicate Width(r: string) {
    exists k :: 1 <= k <= |r| && AllDigits(r[..k]) && (r[k..] == "" || r[k..] == "b" || r[k..] == "bit")
  }

  // mtp | oq<N>e | (fp|q|bf)<N>[b|bit]
  predicate IsVariantToken(t: string) {
    || t == "mtp"
    || (|t| >= 4 && t[..2] == "oq" && t[|t| - 1] == 'e' && AllDigits(t[2..|t| - 1]))
    || (|t| >= 2 && (t[..2] == "fp" || t[..2] == "bf") && Width(t[2..]))
    || (|t| >= 1 && t[0] == 'q' && Width(t[1..]))
  }

  predicate IsVariant(p: string) {
    p != "" && IsSep(p[0]) && IsVariantToken(p[1..])
  }

  predicate Recognized(p: string) { p in POSTFIXES || IsVariant(p) }

  predicate Number(n: string) { n != "" && AllDigits(n) }

  // mtp, oq4e, fp8, q4b, bf16bit: a family, a number and perhaps a unit.
  ghost predicate VariantToken(t: string) {
    || t == "mtp"
    || (exists n :: Number(n) && t == "oq" + n + "e")
    || exists family, n, unit ::
         family in ["fp", "q", "bf"] && Number(n) && unit in ["", "b", "bit"] && t == family + n + unit
  }

  // Behind a separator: a core, a width and "bit" with a separator between, or a variant.
  ghost predicate Postfix(p: string) {
    exists lead, t :: lead in ["-", "_"] && p == lead + t && PostfixToken(t)
  }

  ghost predicate PostfixToken(t: string) {
    || t in CORES
    || (exists w, sep :: w + "bit" in CORES && sep in ["-", "_"] && t == w + sep + "bit")
    || VariantToken(t)
  }

  // The recognized postfixes, by their spelling.
  lemma PostfixMeans(p: string)
    ensures Recognized(p) <==> Postfix(p)
  {
    hide IsVariantToken, VariantToken, CORES, ExpandCore;
    if p in POSTFIXES {
      ExpandAllMeans(CORES, p);
      var c :| c in CORES && p in ExpandCore(c);
      ExpandMeans(c, p);
    } else if IsVariant(p) {
      VariantMeans(p[1..]);
      assert p == [p[0]] + p[1..] && [p[0]] in ["-", "_"];
    }
    if Postfix(p) {
      var lead, t :| lead in ["-", "_"] && p == lead + t && PostfixToken(t);
      if t in CORES {
        ExpandMeans(t, p);
        ExpandAllMeans(CORES, p);
      } else if VariantToken(t) {
        VariantMeans(t);
        assert p[1..] == t;
      } else {
        var w, sep :| w + "bit" in CORES && sep in ["-", "_"] && t == w + sep + "bit";
        assert SpacedOut(w + "bit", lead, p);
        ExpandMeans(w + "bit", p);
        ExpandAllMeans(CORES, p);
      }
    }
  }

  // The spellings of one core.
  ghost predicate Spelling(c: string, p: string) {
    exists lead :: lead in ["-", "_"] && (p == lead + c || SpacedOut(c, lead, p))
  }

  ghost predicate SpacedOut(c: string, lead: string, p: string) {
    exists w, sep :: c == w + "bit" && sep in ["-", "_"] && p == lead + (w + sep + "bit")
  }

  lemma ExpandMeans(c: string, p: string)
    ensures p in ExpandCore(c) <==> Spelling(c, p)
  {
    hide ExpandCore, SpacedOut;
    if p in ExpandCore(c) {
      ExpandSpells(c, p);
    }
    if Spelling(c, p) {
      var lead :| lead in ["-", "_"] && (p == lead + c || SpacedOut(c, lead, p));
      ExpandHas(c, lead, p);
    }
  }

  lemma ExpandSpells(c: string, p: string)
    requires p in ExpandCore(c)
    ensures Spelling(c, p)
  {
    if p == "-" + c || p == "_" + c {
    } else {
      var w := Drop(c, "bit");
      assert c == w + "bit";
      assert "-" + "bit" == "-bit" && "_" + "bit" == "_bit";
      var lead := [p[0]];
      var sep := if p == lead + w + "-bit" then "-" else "_";
      Regroup(lead, w, sep);
      assert SpacedOut(c, lead, p);
    }
  }

  lemma ExpandHas(c: string, lead: string, p: string)
    requires lead in ["-", "_"] && (p == lead + c || SpacedOut(c, lead, p))
    ensures p in ExpandCore(c)
  {
    hide SpacedOut;
    if p == lead + c {
      assert ["-" + c, "_" + c][if lead == "-" then 0 else 1] == p;
    } else {
      SpacedIn(c, lead, p);
    }
  }

  lemma SpacedIn(c: string, lead: string, p: string)
    requires lead in ["-", "_"] && SpacedOut(c, lead, p)
    ensures EndsWith(c, "bit")
    ensures var w := Drop(c, "bit"); p in ["-" + w + "-bit", "-" + w + "_bit", "_" + w + "-bit", "_" + w + "_bit"]
  {
    var w, sep :| c == w + "bit" && sep in ["-", "_"] && p == lead + (w + sep + "bit");
    assert EndsWith(c, "bit") && Drop(c, "bit") == w by { assert c[|w|..] == "bit" && c[..|w|] == w; }
    Regroup(lead, w, sep);
    assert p in ["-" + w + "-bit", "-" + w + "_bit", "_" + w + "-bit", "_" + w + "_bit"];
  }

  lemma Regroup(lead: string, w: string, sep: string)
    requires lead in ["-", "_"] && sep in ["-", "_"]
    ensures lead + (w + sep + "bit") == lead + w + if sep == "-" then "-bit" else "_bit"
  {
    assert sep + "bit" == if sep == "-" then "-bit" else "_bit";
    assert lead + (w + sep + "bit") == lead + w + (sep + "bit");
  }

  lemma {:induction false} ExpandAllMeans(cores: seq<string>, p: string)
    ensures p in ExpandAll(cores) <==> exists c :: c in cores && p in ExpandCore(c)
  {
    hide ExpandCore;
    if cores != [] {
      ExpandAllMeans(cores[..|cores| - 1], p);
      assert cores == cores[..|cores| - 1] + [cores[|cores| - 1]];
    }
  }

  lemma WidthMeans(r: string)
    ensures Width(r) <==> exists n, unit :: Number(n) && unit in ["", "b", "bit"] && r == n + unit
  {
    if Width(r) {
      var k :| 1 <= k <= |r| && AllDigits(r[..k]) && (r[k..] == "" || r[k..] == "b" || r[k..] == "bit");
      assert r == r[..k] + r[k..] && Number(r[..k]);
    }
    if n, unit :| Number(n) && unit in ["", "b", "bit"] && r == n + unit {
      assert r[..|n|] == n && r[|n|..] == unit;
    }
  }

  lemma VariantMeans(t: string)
    ensures IsVariantToken(t) <==> VariantToken(t)
  {
    hide IsVariantToken, AllDigits;
    if IsVariantToken(t) {
      VariantSplits(t);
    }
    if t == "mtp" {
      MtpVariant();
    }
    if n :| Number(n) && t == "oq" + n + "e" {
      OrdinalVariant(n);
    }
    if family, n, unit :| family in ["fp", "q", "bf"] && Number(n) && unit in ["", "b", "bit"] && t == family + n + unit {
      assert t == family + (n + unit);
      WidthVariant(family, n, unit);
    }
  }

  lemma MtpVariant()
    ensures IsVariantToken("mtp")
  {
  }

  lemma OrdinalVariant(n: string)
    requires Number(n)
    ensures IsVariantToken("oq" + n + "e")
  {
    var t := "oq" + n + "e";
    assert t[..2] == "oq" && t[2..|t| - 1] == n;
  }

  lemma WidthVariant(family: string, n: string, unit: string)
    requires family in ["fp", "q", "bf"] && Number(n) && unit in ["", "b", "bit"]
    ensures IsVariantToken(family + (n + unit))
  {
    hide Width, AllDigits;
    var t := family + (n + unit);
    assert t[..|family|] == family && t[|family|..] == n + unit;
    WidthMeans(n + unit);
  }

  lemma VariantSplits(t: string)
    requires IsVariantToken(t)
    ensures VariantToken(t)
  {
    hide Width, AllDigits;
    if |t| >= 4 && t[..2] == "oq" && t[|t| - 1] == 'e' && AllDigits(t[2..|t| - 1]) {
      assert t == "oq" + t[2..|t| - 1] + "e";
    } else if t != "mtp" {
      var k := if |t| >= 2 && (t[..2] == "fp" || t[..2] == "bf") && Width(t[2..]) then 2 else 1;
      WidthMeans(t[k..]);
      var n, unit :| Number(n) && unit in ["", "b", "bit"] && t[k..] == n + unit;
      var family := t[..k];
      assert k == 1 ==> family == "q";
      assert t == family + n + unit;
    }
  }

  // A postfix starts with a separator; another one can only stand before a final "bit".
  predicate Shaped(p: string) {
    && p != "" && IsSep(p[0])
    && (forall i :: 1 <= i < |p| ==> IsPlain(p[i]) || IsSep(p[i]))
    && (forall i :: 1 <= i < |p| && IsSep(p[i]) ==> p[i + 1..] == "bit")
  }

  predicate CoreOk(c: string) { AllPlain(c) && c != "bit" }

  lemma CoresOk()
    ensures forall i :: 0 <= i < |CORES| ==> CoreOk(CORES[i])
  {
    assert CoreOk("safetensors") && CoreOk("32bit") && CoreOk("16bit") && CoreOk("gguf") && CoreOk("ggml") && CoreOk("onnx");
    assert CoreOk("gptq") && CoreOk("8bit") && CoreOk("6bit") && CoreOk("5bit") && CoreOk("4bit") && CoreOk("3bit");
    assert CoreOk("2bit") && CoreOk("awq") && CoreOk("nf4") && CoreOk("mlx");
  }

  lemma SpelledShaped(lead: string, w: string, sep: string)
    requires |lead| == 1 && IsSep(lead[0]) && |sep| == 1 && IsSep(sep[0]) && AllPlain(w)
    ensures Shaped(lead + w + (sep + "bit")) && |lead + w + (sep + "bit")| >= 5
  {
    var p := lead + w + (sep + "bit");
    var z := sep + "bit";
    assert z == [sep[0], 'b', 'i', 't'];
    assert p[|w| + 2..] == "bit";
    forall i | 1 <= i < |p| ensures (IsPlain(p[i]) || IsSep(p[i])) && (IsSep(p[i]) ==> i == |w| + 1) {
      if i <= |w| { assert p[i] == w[i - 1]; } else { assert p[i] == z[i - 1 - |w|]; }
    }
  }

  lemma PlainShaped(lead: string, c: string)
    requires |lead| == 1 && IsSep(lead[0]) && AllPlain(c)
    ensures Shaped(lead + c)
  {
    assert forall i :: 1 <= i < |lead + c| ==> (lead + c)[i] == c[i - 1];
  }

  lemma ExpandShaped(c: string, p: string)
    requires CoreOk(c) && p in ExpandCore(c)
    ensures Shaped(p) && p[1..] != "bit"
  {
    PlainShaped("-", c);
    PlainShaped("_", c);
    if p == "-" + c || p == "_" + c {
      assert p[1..] == c;
    } else {
      var w := Drop(c, "bit");
      SpelledShaped("-", w, "-");
      SpelledShaped("-", w, "_");
      SpelledShaped("_", w, "-");
      SpelledShaped("_", w, "_");
      assert "-" + "bit" == "-bit" && "_" + "bit" == "_bit";
      assert |p| >= 5;
    }
  }

  lemma {:induction false} ExpandAllShaped(cores: seq<string>, p: string)
    requires (forall i :: 0 <= i < |cores| ==> CoreOk(cores[i])) && p in ExpandAll(cores)
    ensures Shaped(p) && p[1..] != "bit"
  {
    hide ExpandCore, CoreOk;
    if p in ExpandAll(cores[..|cores| - 1]) {
      ExpandAllShaped(cores[..|cores| - 1], p);
    } else {
      ExpandShaped(cores[|cores| - 1], p);
    }
  }

  lemma WidthPlain(r: string)
    requires Width(r)
    ensures AllPlain(r) && r != "bit"
  {
    var k :| 1 <= k <= |r| && AllDigits(r[..k]) && (r[k..] == "" || r[k..] == "b" || r[k..] == "bit");
    assert IsDigit(r[..k][0]);
    assert "bit"[0] == 'b' && "bit"[1] == 'i' && "bit"[2] == 't';
    forall i | 0 <= i < |r| ensures IsPlain(r[i]) {
      if i < k { assert r[i] == r[..k][i]; } else { assert r[i] == r[k..][i - k]; }
    }
  }

  lemma VariantPlain(t: string)
    requires IsVariantToken(t)
    ensures AllPlain(t) && t != "bit"
  {
    hide Width;
    if t == "mtp" {
    } else if |t| >= 4 && t[..2] == "oq" && t[|t| - 1] == 'e' && AllDigits(t[2..|t| - 1]) {
      forall i | 0 <= i < |t| ensures IsPlain(t[i]) {
        if i < 2 { assert t[i] == t[..2][i]; }
        else if i < |t| - 1 { assert t[i] == t[2..|t| - 1][i - 2]; }
      }
    } else if |t| >= 2 && (t[..2] == "fp" || t[..2] == "bf") && Width(t[2..]) {
      WidthPlain(t[2..]);
      assert t[..2][1] == 'p' || t[..2][1] == 'f';
      forall i | 0 <= i < |t| ensures IsPlain(t[i]) {
        if i < 2 { assert t[i] == t[..2][i]; } else { assert t[i] == t[2..][i - 2]; }
      }
    } else {
      WidthPlain(t[1..]);
      forall i | 1 <= i < |t| ensures IsPlain(t[i]) { assert t[i] == t[1..][i - 1]; }
    }
  }

  lemma RecognizedShaped(p: string)
    requires Recognized(p)
    ensures Shaped(p) && p[1..] != "bit"
  {
    hide ExpandAll, IsVariantToken;
    if p in POSTFIXES {
      CoresOk();
      ExpandAllShaped(CORES, p);
    } else {
      VariantPlain(p[1..]);
      assert forall i :: 1 <= i < |p| ==> p[i] == p[1..][i - 1];
    }
  }

  // A name ends in at most one recognized postfix.
  lemma UniquePostfix(s: string, p: string, q: string)
    requires EndsWith(s, p) && EndsWith(s, q) && Recognized(p) && Recognized(q)
    ensures p == q
  {
    hide Recognized;
    RecognizedShaped(p);
    RecognizedShaped(q);
    if |p| < |q| {
      SuffixOfSuffix(s, p, q);
    } else if |q| < |p| {
      SuffixOfSuffix(s, q, p);
    }
  }

  lemma SuffixOfSuffix(s: string, p: string, q: string)
    requires EndsWith(s, p) && EndsWith(s, q) && |p| < |q| && Shaped(p) && Shaped(q)
    ensures p[1..] == "bit"
  {
    var k := |q| - |p|;
    assert q[k..] == p;
    assert q[k] == p[0] && q[k + 1..] == p[1..];
  }

  // ---------------------------------------------------------------------
  // Stripping
  // ---------------------------------------------------------------------

  // The longest listed postfix the name ends in, or "".
  function LongestLiteral(id: string, list: seq<string>): (m: string)
    ensures EndsWith(id, m) && (m == "" || m in list)
    ensures forall p :: p in list && EndsWith(id, p) ==> |p| <= |m|
  {
    if list == [] then ""
    else
      var p := list[|list| - 1];
      var m := LongestLiteral(id, list[..|list| - 1]);
      if |p| > |m| && EndsWith(id, p) then p else m
  }

  // The position of the last separator, or -1.
  function LastSep(s: string): (i: int)
    ensures -1 <= i < |s| && (i >= 0 ==> IsSep(s[i])) && forall k :: i < k < |s| ==> !IsSep(s[k])
  {
    if s == "" then -1 else if IsSep(s[|s| - 1]) then |s| - 1 else LastSep(s[..|s| - 1])
  }

  // One pass: the listed postfix first, then a trailing variant token; None when neither ends the name.
  function StripOnceOf(id: string, list: seq<string>): (r: Option<string>)
    ensures r.Some? ==> |r.value| < |id|
  {
    var m := LongestLiteral(id, list);
    if m != "" then Some(Drop(id, m))
    else
      var i := LastSep(id);
      if i >= 0 && IsVariantToken(id[i + 1..]) then Some(id[..i]) else None
  }

  function StripOnce(id: string): (r: Option<string>)
    ensures r.Some? ==> |r.value| < |id|
  {
    StripOnceOf(id, POSTFIXES)
  }

  function Strip(id: string): string
    decreases |id|
  {
    match StripOnce(id)
    case None => id
    case Some(rest) => Strip(rest)
  }

  method FindLongest(id: string, list: seq<string>) returns (m: string)
    ensures m == LongestLiteral(id, list)
  {
    m := "";
    for k := 0 to |list|
      invariant m == LongestLiteral(id, list[..k])
    {
      assert list[..k + 1][..k] == list[..k];
      var p := list[k];
      if |p| > |m| && EndsWith(id, p) {
        m := p;
      }
    }
    assert list[..|list|] == list;
  }

  // No recognized postfix is left when the loop ends.
  method StripModelIDPostfixes(name: string) returns (id: string)
    ensures id == Strip(name)
    ensures forall p :: Recognized(p) ==> !EndsWith(id, p)
  {
    hide *;
    id := name;
    while true
      invariant Strip(id) == Strip(name)
      decreases |id|
    {
      var m := FindLongest(id, POSTFIXES);
      var i := LastSep(id);
      PassIsStripOnce(id, m, i);
      if m != "" {
        id := Drop(id, m);
        continue;
      }
      if i >= 0 && IsVariantToken(id[i + 1..]) {
        id := id[..i];
        continue;
      }
      return;
    }
  }

  lemma PassIsStripOnce(id: string, m: string, i: int)
    requires m == LongestLiteral(id, POSTFIXES) && i == LastSep(id)
    ensures EndsWith(id, m) && -1 <= i < |id|
    ensures m != "" ==> |Drop(id, m)| < |id| && Strip(id) == Strip(Drop(id, m))
    ensures m == "" && i >= 0 && IsVariantToken(id[i + 1..]) ==> Strip(id) == Strip(id[..i])
    ensures m == "" && !(i >= 0 && IsVariantToken(id[i + 1..])) ==>
              id == Strip(id) && forall p :: Recognized(p) ==> !EndsWith(id, p)
  {
    hide IsVariantToken, Recognized, LongestLiteral, ExpandAll, LastSep;
    if m == "" && !(i >= 0 && IsVariantToken(id[i + 1..])) {
      forall p | Recognized(p) ensures !EndsWith(id, p) {
        StripSeesPostfix(id, p);
      }
    }
  }

  // A pass that stops has met no postfix; a pass that strips took off a recognized one.
  lemma StripTakes(id: string) returns (q: string)
    requires StripOnce(id).Some?
    ensures Recognized(q) && EndsWith(id, q) && StripOnce(id) == Some(Drop(id, q))
  {
    hide IsVariantToken, ExpandAll;
    var m := LongestLiteral(id, POSTFIXES);
    if m != "" {
      q := m;
    } else {
      var i := LastSep(id);
      q := id[i..];
      assert q[1..] == id[i + 1..];
      assert id[|id| - |q|..] == q;
    }
  }

  lemma StripSeesPostfix(id: string, p: string)
    requires Recognized(p)
    ensures EndsWith(id, p) ==> StripOnce(id).Some?
  {
    hide IsVariantToken, ExpandAll;
    if EndsWith(id, p) {
      RecognizedShaped(p);
      if p !in POSTFIXES {
        VariantPlain(p[1..]);
        var k := |id| - |p|;
        assert forall i :: k < i < |id| ==> id[i] == p[1..][i - k - 1];
        assert id[k] == p[0] && id[k + 1..] == p[1..];
        assert LastSep(id) == k;
      }
    }
  }

  // Stripping removes any recognized postfix first, whichever it is.
  lemma StripPostfix(id: string, p: string)
    requires Recognized(p)
    ensures Strip(id + p) == Strip(id)
  {
    hide Recognized, StripOnce;
    var s := id + p;
    assert s[|s| - |p|..] == p && s[..|s| - |p|] == id;
    StripSeesPostfix(s, p);
    var q := StripTakes(s);
    UniquePostfix(s, p, q);
  }

  lemma {:induction false} StripNormal(id: string)
    ensures StripOnce(Strip(id)).None? && Strip(Strip(id)) == Strip(id)
    decreases |id|
  {
    hide StripOnce;
    if StripOnce(id).Some? {
      var q := StripTakes(id);
      RecognizedShaped(q);
      StripNormal(StripOnce(id).value);
    }
  }

  // ---------------------------------------------------------------------
  // Normalization
  // ---------------------------------------------------------------------

  function LowerChar(c: char): char {
    if 'A' <= c <= 'Z' then (c as int + 32) as char else c
  }

  function ToLower(s: string): (r: string)
    ensures |r| == |s| && forall i :: 0 <= i < |s| ==> r[i] == LowerChar(s[i])
  {
    seq(|s|, i requires 0 <= i < |s| => LowerChar(s[i]))
  }

  function WithoutSeparators(s: string): string {
    if s == "" then ""
    else (if s[0] == '.' || IsSep(s[0]) then "" else [s[0]]) + WithoutSeparators(s[1..])
  }

  // The lowercased bare name up to an "@" qualifier.
  function Core(id: string): string {
    var s := ToLower(BareModel(id));
    s[..IndexByte(s, '@')]
  }

  function NormalizeModelID(id: string): string { WithoutSeparators(Strip(Core(id))) }

  // Recognized in any letter case.
  predicate Decoration(p: string) { Recognized(ToLower(p)) }

  lemma DecorationChars(p: string)
    requires Decoration(p)
    ensures forall i :: 0 <= i < |p| ==> p[i] != '/' && ToLower(p)[i] != '@'
  {
    hide Recognized;
    RecognizedShaped(ToLower(p));
  }

  lemma {:induction false} IndexByteAppend(s: string, t: string, c: char)
    ensures IndexByte(s, c) < |s| ==> IndexByte(s + t, c) == IndexByte(s, c)
    ensures IndexByte(s, c) == |s| ==> IndexByte(s + t, c) == |s| + IndexByte(t, c)
  {
    if s == "" {
      assert s + t == t;
    } else {
      assert (s + t)[1..] == s[1..] + t;
      IndexByteAppend(s[1..], t, c);
    }
  }

  // Before the "@" cut a decoration only extends the name; behind it, it vanishes.
  lemma CoreAppend(id: string, p: string)
    requires Decoration(p)
    ensures Core(id + p) == Core(id) || Core(id + p) == Core(id) + ToLower(p)
  {
    hide Decoration;
    DecorationChars(p);
    IndexByteAppend(id, p, '/');
    var bare := BareModel(id);
    assert BareModel(id + p) == bare + p;
    assert ToLower(bare + p) == ToLower(bare) + ToLower(p);
    IndexByteAppend(ToLower(bare), ToLower(p), '@');
    var s := ToLower(bare);
    if IndexByte(s, '@') < |s| {
      assert (s + ToLower(p))[..IndexByte(s, '@')] == s[..IndexByte(s, '@')];
    } else {
      assert s[..|s|] == s;
      assert (s + ToLower(p))[..|s + ToLower(p)|] == s + ToLower(p);
    }
  }

  lemma DecorationInvisible(id: string, p: string)
    requires Decoration(p)
    ensures NormalizeModelID(id + p) == NormalizeModelID(id)
  {
    hide Recognized, Strip, Core;
    CoreAppend(id, p);
    StripPostfix(Core(id), ToLower(p));
  }

  function Concat(parts: seq<string>): string {
    if parts == [] then "" else Concat(parts[..|parts| - 1]) + parts[|parts| - 1]
  }

  // No chain of delivery or quantization postfixes changes the normalized name.
  lemma {:induction false} ChainInvisible(id: string, parts: seq<string>)
    requires forall i :: 0 <= i < |parts| ==> Decoration(parts[i])
    ensures NormalizeModelID(id + Concat(parts)) == NormalizeModelID(id)
  {
    hide Decoration, NormalizeModelID;
    if parts == [] {
      assert id + "" == id;
    } else {
      var init := parts[..|parts| - 1];
      ChainInvisible(id, init);
      DecorationInvisible(id + Concat(init), parts[|parts| - 1]);
      assert id + Concat(init) + parts[|parts| - 1] == id + Concat(parts);
    }
  }

  // A vendor in front, a base, any chain of postfixes, and a qualifier from an "@" on.
  ghost predicate Reads(id: string, vendor: string, base: string, parts: seq<string>, tail: string) {
    && id == vendor + base + Concat(parts) + tail
    && IsVendor(vendor, id)
    && IsBase(base)
    && (forall i :: 0 <= i < |parts| ==> Decoration(parts[i]))
    && (tail == "" || tail[0] == '@')
  }

  // Up to the first slash, if there is one.
  predicate IsVendor(vendor: string, id: string) {
    if vendor == "" then '/' !in id else vendor[|vendor| - 1] == '/' && '/' !in vendor[..|vendor| - 1]
  }

  // No qualifier, and no recognized postfix at its end.
  ghost predicate IsBase(base: string) {
    '@' !in base && forall p :: EndsWith(base, p) ==> !Decoration(p)
  }

  // Every identifier reads so in a way, and its normalized name is the base in lower case without separators.
  lemma NormalizedIs(id: string, vendor: string, base: string, parts: seq<string>, tail: string)
    requires Reads(id, vendor, base, parts, tail)
    ensures NormalizeModelID(id) == WithoutSeparators(ToLower(base))
  {
    hide Decoration, Strip, WithoutSeparators, NormalizeModelID;
    var named := vendor + base;
    var whole := named + Concat(parts);
    VendorShorter(vendor, whole, tail);
    VendorShorter(vendor, named, Concat(parts));
    assert whole == vendor + (base + Concat(parts));
    QualifierInvisible(vendor, base + Concat(parts), tail);
    assert whole + tail == vendor + (base + Concat(parts) + tail);
    ChainInvisible(named, parts);
    BaseNormal(vendor, base);
  }

  lemma BaseNormal(vendor: string, base: string)
    requires IsBase(base) && IsVendor(vendor, vendor + base)
    ensures NormalizeModelID(vendor + base) == WithoutSeparators(ToLower(base))
  {
    hide Decoration, Strip, WithoutSeparators;
    BaseStays(base);
    BareBehind(vendor, base);
    LowerAt(base);
    assert ToLower(base)[..|base|] == ToLower(base);
  }

  lemma VendorShorter(vendor: string, a: string, b: string)
    requires IsVendor(vendor, a + b)
    ensures IsVendor(vendor, a)
  {
    assert '/' in a ==> '/' in a + b;
  }

  // Dropping separators drops exactly the characters '.', '-' and '_'.
  lemma {:induction false} SeparatorsDrop(a: string, c: char, b: string)
    ensures WithoutSeparators(a + [c] + b) == WithoutSeparators(a) + (if c in ".-_" then "" else [c]) + WithoutSeparators(b)
    ensures WithoutSeparators("") == ""
  {
    var s := a + [c] + b;
    if a == "" {
      assert s[1..] == b;
    } else {
      assert s[1..] == a[1..] + [c] + b;
      SeparatorsDrop(a[1..], c, b);
    }
  }

  lemma BareBehind(vendor: string, rest: string)
    requires IsVendor(vendor, vendor + rest)
    ensures BareModel(vendor + rest) == rest
    ensures Core(vendor + rest) == ToLower(rest)[..IndexByte(ToLower(rest), '@')]
  {
    var id := vendor + rest;
    if vendor == "" {
      assert id == rest;
    } else {
      IndexByteUnique(id, '/', |vendor| - 1);
      assert id[|vendor|..] == rest;
    }
  }

  lemma QualifierInvisible(vendor: string, rest: string, tail: string)
    requires (tail == "" || tail[0] == '@') && IsVendor(vendor, vendor + (rest + tail)) && IsVendor(vendor, vendor + rest)
    ensures NormalizeModelID(vendor + (rest + tail)) == NormalizeModelID(vendor + rest)
  {
    hide Strip, WithoutSeparators, IndexByte, IsVendor;
    BareBehind(vendor, rest);
    BareBehind(vendor, rest + tail);
    assert ToLower(rest + tail) == ToLower(rest) + ToLower(tail);
    CropAt(ToLower(rest), ToLower(tail));
  }

  lemma CropAt(s: string, tail: string)
    requires tail == "" || tail[0] == '@'
    ensures (s + tail)[..IndexByte(s + tail, '@')] == s[..IndexByte(s, '@')]
  {
    if tail == "" {
      assert s + tail == s;
    } else {
      IndexByteAppend(s, tail, '@');
    }
  }

  lemma RawSuffix(s: string, q: string) returns (p: string)
    requires EndsWith(ToLower(s), q)
    ensures EndsWith(s, p) && ToLower(p) == q
  {
    p := s[|s| - |q|..];
    assert s[|s| - |p|..] == p;
  }

  lemma BaseStays(base: string)
    requires IsBase(base)
    ensures Strip(ToLower(base)) == ToLower(base)
  {
    hide StripOnce, Recognized;
    if StripOnce(ToLower(base)).Some? {
      var q := StripTakes(ToLower(base));
      var p := RawSuffix(base, q);
    }
  }

  // The last postfix of a name, or a base.
  lemma PeelOne(s: string) returns (p: string)
    requires '@' !in s
    ensures p == "" ==> IsBase(s)
    ensures p != "" ==> EndsWith(s, p) && Decoration(p)
  {
    hide StripOnce, Recognized;
    p := "";
    if StripOnce(ToLower(s)).Some? {
      var q := StripTakes(ToLower(s));
      RecognizedShaped(q);
      p := RawSuffix(s, q);
    } else {
      forall p | EndsWith(s, p) ensures !Decoration(p) {
        assert ToLower(s)[|s| - |p|..] == ToLower(p);
        if Recognized(ToLower(p)) { StripSeesPostfix(ToLower(s), ToLower(p)); }
      }
    }
  }

  lemma {:induction false} Peel(s: string) returns (base: string, parts: seq<string>)
    requires '@' !in s
    ensures s == base + Concat(parts) && IsBase(base)
    ensures forall i :: 0 <= i < |parts| ==> Decoration(parts[i])
    decreases |s|
  {
    hide IsBase, Decoration;
    base, parts := s, [];
    var p := PeelOne(s);
    if p != "" {
      var init;
      base, init := Peel(Drop(s, p));
      parts := init + [p];
      assert parts[..|init|] == init;
      assert s == Drop(s, p) + p;
      assert base + (Concat(init) + p) == base + Concat(init) + p;
    } else {
      assert s == s + "";
    }
  }

  lemma VendorOf(id: string) returns (vendor: string)
    ensures |vendor| <= |id| && vendor == id[..|vendor|] && IsVendor(vendor, id)
  {
    var i := IndexByte(id, '/');
    vendor := if i < |id| then id[..i + 1] else "";
  }

  lemma EveryNameReads(id: string) returns (vendor: string, base: string, parts: seq<string>, tail: string)
    ensures Reads(id, vendor, base, parts, tail)
  {
    hide Decoration, IsBase, IsVendor, IndexByte;
    vendor := VendorOf(id);
    var bare := id[|vendor|..];
    var at := IndexByte(bare, '@');
    tail := bare[at..];
    base, parts := Peel(bare[..at]);
    assert id == vendor + (bare[..at] + tail);
    assert vendor + (base + Concat(parts) + tail) == vendor + base + Concat(parts) + tail;
  }

  function Slashes(s: string): nat {
    if s == "" then 0 else (if s[0] == '/' then 1 else 0) + Slashes(s[1..])
  }

  lemma {:induction false} SlashesConcat(a: string, b: string)
    ensures Slashes(a + b) == Slashes(a) + Slashes(b)
  {
    if a == "" {
      assert a + b == b;
    } else {
      assert (a + b)[1..] == a[1..] + b;
      SlashesConcat(a[1..], b);
    }
  }

  lemma {:induction false} NoSlashes(s: string)
    requires forall i :: 0 <= i < |s| ==> s[i] != '/'
    ensures Slashes(s) == 0
  {
    if s != "" {
      NoSlashes(s[1..]);
    }
  }

  // Neither stripping nor dropping separators touches a slash.
  lemma {:induction false} StripSlashes(id: string)
    ensures Slashes(Strip(id)) == Slashes(id)
    decreases |id|
  {
    hide StripOnce, Recognized;
    if StripOnce(id).Some? {
      var q := StripTakes(id);
      RecognizedShaped(q);
      var rest := Drop(id, q);
      assert id == rest + q;
      SlashesConcat(rest, q);
      NoSlashes(q);
      StripSlashes(rest);
    }
  }

  lemma {:induction false} SeparatorSlashes(s: string)
    ensures Slashes(WithoutSeparators(s)) == Slashes(s)
  {
    if s != "" {
      SeparatorSlashes(s[1..]);
      SlashesConcat(if s[0] == '.' || IsSep(s[0]) then "" else [s[0]], WithoutSeparators(s[1..]));
    }
  }

  function Crop(s: string): string { s[..IndexByte(s, '@')] }

  // The lowercased name up to an "@" qualifier, slashes and all.
  function Cropped(s: string): string { Crop(ToLower(s)) }

  lemma NormalizeIs(id: string)
    ensures NormalizeModelID(id) == WithoutSeparators(Strip(Cropped(BareModel(id))))
  {
  }

  // Where the "@" stands in a slashed name.
  lemma AtInSlashed(l: string, r: string)
    ensures var t := l + ("/" + r);
            IndexByte(t, '@') == if IndexByte(l, '@') < |l| then IndexByte(l, '@') else |l| + 1 + IndexByte(r, '@')
  {
    IndexByteAppend(l, "/" + r, '@');
    assert ("/" + r)[1..] == r;
  }

  lemma CutBehind(l: string, r: string, k: nat)
    requires k <= |r|
    ensures (l + ("/" + r))[..|l| + 1 + k] == l + ("/" + r[..k])
  {
    assert ("/" + r)[..1 + k] == "/" + r[..k];
  }

  lemma CutWithin(l: string, tail: string, k: nat)
    requires k <= |l|
    ensures (l + tail)[..k] == l[..k]
  {
  }

  // Cropping a slashed name, by where the "@" stands.
  lemma CropSlash(l: string, r: string)
    ensures Crop(l + ("/" + r)) == if IndexByte(l, '@') < |l| then Crop(l) else l + ("/" + Crop(r))
  {
    hide IndexByte;
    AtInSlashed(l, r);
    CutWithin(l, "/" + r, IndexByte(l, '@'));
    CutBehind(l, r, IndexByte(r, '@'));
  }

  lemma CroppedSlash(org: string, rest: string)
    ensures Cropped(org + ("/" + rest)) == if IndexByte(org, '@') < |org| then Cropped(org) else ToLower(org) + ("/" + Cropped(rest))
  {
    LowerSlashed(org, rest);
    LowerAt(org);
    CropSlash(ToLower(org), ToLower(rest));
  }

  lemma LowerSlashed(org: string, rest: string)
    ensures ToLower(org + ("/" + rest)) == ToLower(org) + ("/" + ToLower(rest))
  {
    var s := org + ("/" + rest);
    assert s[|org|] == '/';
  }

  lemma LowerAt(s: string)
    ensures IndexByte(ToLower(s), '@') == IndexByte(s, '@')
  {
    var i := IndexByte(s, '@');
    assert i < |s| ==> ToLower(s)[i] == '@';
    assert forall k :: 0 <= k < |s| && ToLower(s)[k] == '@' ==> s[k] == '@';
  }

  lemma LowerSlashes(s: string)
    requires IndexByte(s, '/') == |s|
    ensures Slashes(ToLower(s)) == 0
  {
    assert forall k :: 0 <= k < |s| && ToLower(s)[k] == '/' ==> s[k] == '/';
    NoSlashes(ToLower(s));
  }

  // A provider in front does not change the normalized name of a model exactly when the model has no slash, or when
  // an "@" stands before its first slash and what precedes that slash normalizes to the same name. The first case is
  // read off the spelling; names with an "@" before the slash are a fringe on which two normal forms are compared.
  lemma VendorInvisibleIff(provider: string, model: string)
    requires IndexByte(provider, '/') == |provider|
    ensures var i := IndexByte(model, '/');
            NormalizeModelID(CompositeModelID(provider, model)) == NormalizeModelID(model)
            <==> i == |model|
                 || (IndexByte(model[..i], '@') < i && NormalizeModelID(model[..i]) == NormalizeModelID(model))
  {
    hide Strip, NormalizeModelID, Cropped, WithoutSeparators, IndexByte;
    ParseComposed(provider, model);
    NormalizeIs(CompositeModelID(provider, model));
    NormalizeIs(model);
    var i := IndexByte(model, '/');
    if i < |model| {
      var org, rest := model[..i], model[i + 1..];
      assert model == org + ("/" + rest);
      SlashFree(org);
      CroppedSlash(org, rest);
      NormalizeIs(org);
      if IndexByte(org, '@') == |org| {
        OneMoreSlash(org, rest);
      }
    }
  }

  lemma SlashFree(s: string)
    requires forall k :: 0 <= k < |s| ==> s[k] != '/'
    ensures IndexByte(s, '/') == |s| && BareModel(s) == s
  {
  }

  // A slash kept in the name tells it from the name without.
  lemma OneMoreSlash(org: string, rest: string)
    requires IndexByte(org, '/') == |org|
    ensures WithoutSeparators(Strip(ToLower(org) + ("/" + Cropped(rest)))) != WithoutSeparators(Strip(Cropped(rest)))
  {
    hide Strip, Cropped, WithoutSeparators, ToLower;
    var long, short := ToLower(org) + ("/" + Cropped(rest)), Cropped(rest);
    SlashesConcat(ToLower(org), "/" + short);
    SlashesConcat("/", short);
    LowerSlashes(org);
    StripSlashes(long);
    StripSlashes(short);
    SeparatorSlashes(Strip(long));
    SeparatorSlashes(Strip(short));
  }

  // An ordinary name with a slash, such as meta-llama/Llama-3-70b: under a provider it keeps its first part.
  lemma SlashedNameDiffers(provider: string, org: string, rest: string)
    requires forall k :: 0 <= k < |provider| ==> provider[k] != '/'
    requires forall k :: 0 <= k < |org| ==> org[k] != '/' && org[k] != '@'
    ensures NormalizeModelID(CompositeModelID(provider, org + "/" + rest)) != NormalizeModelID(org + "/" + rest)
  {
    hide NormalizeModelID;
    var model := org + "/" + rest;
    IndexByteUnique(model, '/', |org|);
    assert model[..|org|] == org;
    VendorInvisibleIff(provider, model);
  }

  // ---------------------------------------------------------------------
  // The normalized index
  // ---------------------------------------------------------------------

  predicate LexLess(a: string, b: string) {
    b != "" && (a == "" || a[0] < b[0] || (a[0] == b[0] && LexLess(a[1..], b[1..])))
  }

  lemma {:induction false} LexTotal(a: string, b: string)
    ensures a == b || LexLess(a, b) || LexLess(b, a)
    ensures !(LexLess(a, b) && LexLess(b, a))
  {
    if a != "" && b != "" {
      LexTotal(a[1..], b[1..]);
      assert a == [a[0]] + a[1..] && b == [b[0]] + b[1..];
    }
  }

  lemma {:induction false} LexTrans(a: string, b: string, c: string)
    requires LexLess(a, b) && LexLess(b, c)
    ensures LexLess(a, c)
  {
    if a != "" && a[0] == b[0] == c[0] {
      LexTrans(a[1..], b[1..], c[1..]);
    }
  }

  lemma {:induction false} PrefixFirst(a: string, t: string)
    requires t != ""
    ensures LexLess(a, a + t)
  {
    if a != "" {
      assert (a + t)[1..] == a[1..] + t;
      PrefixFirst(a[1..], t);
    }
  }

  // Smaller by lowercased spelling, then by raw spelling.
  predicate KeyLess(a: string, b: string) {
    LexLess(ToLower(a), ToLower(b)) || (ToLower(a) == ToLower(b) && LexLess(a, b))
  }

  lemma KeyOrder(a: string, b: string, c: string)
    ensures a == b || KeyLess(a, b) || KeyLess(b, a)
    ensures !(KeyLess(a, b) && KeyLess(b, a))
    ensures KeyLess(a, b) && KeyLess(b, c) ==> KeyLess(a, c)
  {
    hide LexLess;
    LexTotal(a, b);
    LexTotal(ToLower(a), ToLower(b));
    if LexLess(a, b) && LexLess(b, c) { LexTrans(a, b, c); }
    if LexLess(ToLower(a), ToLower(b)) && LexLess(ToLower(b), ToLower(c)) { LexTrans(ToLower(a), ToLower(b), ToLower(c)); }
  }

  // b goes on behind a, or has the greater character where the two part.
  ghost predicate Precedes(a: string, b: string) {
    exists i: nat :: i <= |a| && i < |b| && a[..i] == b[..i] && (i == |a| || a[i] < b[i])
  }

  lemma {:induction false} LexPrecedes(a: string, b: string)
    ensures LexLess(a, b) <==> Precedes(a, b)
  {
    if a == "" {
      assert b != "" ==> a[..0] == b[..0];
    } else if b != "" {
      LexPrecedes(a[1..], b[1..]);
      if a[0] < b[0] {
        assert a[..0] == b[..0];
      } else if i: nat :| a[0] == b[0] && i <= |a[1..]| && i < |b[1..]| && a[1..][..i] == b[1..][..i] && (i == |a[1..]| || a[1..][i] < b[1..][i]) {
        assert a[..i + 1] == [a[0]] + a[1..][..i] && b[..i + 1] == [b[0]] + b[1..][..i];
      }
      if i: nat :| 0 < i <= |a| && i < |b| && a[..i] == b[..i] && (i == |a| || a[i] < b[i]) {
        assert a[..i][0] == b[..i][0] && a[..i][1..] == a[1..][..i - 1] && b[..i][1..] == b[1..][..i - 1];
      }
    }
  }

  // Which of two keys of a class wins it.
  lemma KeyLessMeans(a: string, b: string)
    ensures KeyLess(a, b) <==> Precedes(ToLower(a), ToLower(b)) || (ToLower(a) == ToLower(b) && Precedes(a, b))
  {
    LexPrecedes(a, b);
    LexPrecedes(ToLower(a), ToLower(b));
  }

  // k is the smallest of the given keys that normalize to n.
  ghost predicate IsWinner(keys: set<string>, n: string, k: string) {
    && k in keys && NormalizeModelID(k) == n
    && forall j :: j in keys && NormalizeModelID(j) == n && j != k ==> KeyLess(k, j)
  }

  // The table a scan over the whole registry would answer from.
  ghost predicate IsIndex<V>(m: map<string, V>, index: map<string, V>) {
    && (forall k :: k in m && NormalizeModelID(k) != "" ==> NormalizeModelID(k) in index)
    && (forall n :: n in index ==> n != "" && exists k :: IsWinner(m.Keys, n, k) && index[n] == m[k])
  }

  // There is only one such table, so the order in which the map is walked cannot matter.
  lemma IndexUnique<V>(m: map<string, V>, one: map<string, V>, two: map<string, V>)
    requires IsIndex(m, one) && IsIndex(m, two)
    ensures one == two
  {
    hide NormalizeModelID, KeyLess;
    forall n | n in one ensures n in two && one[n] == two[n] {
      var k :| IsWinner(m.Keys, n, k) && one[n] == m[k];
      assert n in two;
      var j :| IsWinner(m.Keys, n, j) && two[n] == m[j];
      KeyOrder(k, j, k);
    }
    forall n | n in two ensures n in one {
      var k :| IsWinner(m.Keys, n, k) && two[n] == m[k];
    }
  }

  method BuildNormalizedIndex<V>(m: map<string, V>) returns (index: map<string, V>)
    ensures IsIndex(m, index)
  {
    hide NormalizeModelID, KeyLess;
    index := map[];
    var winners: map<string, string> := map[];
    var rest := m.Keys;
    ghost var done: set<string> := {};
    while rest != {}
      invariant done !! rest && done + rest == m.Keys
      invariant index.Keys == winners.Keys
      invariant forall n :: n in winners ==> n != "" && IsWinner(done, n, winners[n]) && index[n] == m[winners[n]]
      invariant forall k :: k in done && NormalizeModelID(k) != "" ==> NormalizeModelID(k) in winners
      decreases rest
    {
      var k :| k in rest;
      rest := rest - {k};
      var norm := NormalizeModelID(k);
      ghost var before, was := winners, done;
      done := done + {k};
      if norm != "" {
        if norm !in winners {
          winners := winners[norm := k];
          index := index[norm := m[k]];
        } else {
          var less := KeyLess(k, winners[norm]);
          if less {
            winners := winners[norm := k];
            index := index[norm := m[k]];
          }
        }
      }
      WinnersStep(was, k, before, winners);
    }
    assert done == m.Keys;
  }

  // One more key updates at most the winner of its own class.
  lemma WinnersStep(done: set<string>, k: string, before: map<string, string>, after: map<string, string>)
    requires k !in done
    requires forall n :: n in before ==> n != "" && IsWinner(done, n, before[n])
    requires forall j :: j in done && NormalizeModelID(j) != "" ==> NormalizeModelID(j) in before
    requires var n := NormalizeModelID(k);
             after == if n != "" && (n !in before || KeyLess(k, before[n])) then before[n := k] else before
    ensures forall n :: n in after ==> n != "" && IsWinner(done + {k}, n, after[n])
    ensures forall j :: j in done + {k} && NormalizeModelID(j) != "" ==> NormalizeModelID(j) in after
  {
    hide NormalizeModelID, KeyLess;
    var norm := NormalizeModelID(k);
    forall n | n in after ensures n != "" && IsWinner(done + {k}, n, after[n]) {
      forall j | j in done + {k} && NormalizeModelID(j) == n && j != after[n] ensures KeyLess(after[n], j) {
        if n in before {
          KeyOrder(k, before[n], j);
        }
      }
    }
  }

  // What scanning a registry for a normalized name answers: the value of the smallest key of its class, if any.
  ghost predicate ScanAnswers<V>(m: map<string, V>, n: string, r: Option<V>) {
    match r
    case Some(v) => exists k :: IsWinner(m.Keys, n, k) && v == m[k]
    case None => forall k :: k in m ==> NormalizeModelID(k) != n
  }

  lemma IndexAnswers<V>(m: map<string, V>, index: map<string, V>, n: string)
    requires IsIndex(m, index) && n != ""
    ensures ScanAnswers(m, n, if n in index then Some(index[n]) else None)
  {
    hide NormalizeModelID, KeyLess;
    if n in index {
      var k :| IsWinner(m.Keys, n, k) && index[n] == m[k];
      assert ScanAnswers(m, n, Some(index[n]));
    }
  }

  // ---------------------------------------------------------------------
  // Lookup and completion
  // ---------------------------------------------------------------------

  // Capabilities: the flags that are set, or None when a lower tier is to say.
  datatype Metadata = Metadata(
    contextWindow: int, outputLimit: int, tokenizerType: string, family: string, protocol: string,
    capabilities: Option<set<string>>, guessed: bool)

  function First(own: int, lower: int): int { if own != 0 then own else lower }

  function FirstText(own: string, lower: string): string { if own != "" then own else lower }

  // Unset fields come from the lower tiers; a guess travels with the capabilities it belongs to.
  function Enriched(own: Metadata, lower: Metadata): Metadata {
    Metadata(
      First(own.contextWindow, lower.contextWindow), First(own.outputLimit, lower.outputLimit),
      FirstText(own.tokenizerType, lower.tokenizerType), FirstText(own.family, lower.family), own.protocol,
      if own.capabilities.Some? then own.capabilities else lower.capabilities,
      if own.capabilities.Some? then own.guessed else lower.guessed)
  }

  predicate Complete(m: Metadata) {
    m.contextWindow != 0 && m.outputLimit != 0 && m.tokenizerType != "" && m.family != "" && m.capabilities.Some?
  }

  method EnrichPartialWith(own: Metadata, lower: Metadata) returns (r: Metadata)
    ensures r == Enriched(own, lower) && (Complete(own) ==> r == own)
    ensures r.contextWindow == if own.contextWindow == 0 then lower.contextWindow else own.contextWindow
    ensures r.outputLimit == if own.outputLimit == 0 then lower.outputLimit else own.outputLimit
    ensures r.tokenizerType == if own.tokenizerType == "" then lower.tokenizerType else own.tokenizerType
    ensures r.family == if own.family == "" then lower.family else own.family
    ensures r.protocol == own.protocol
    ensures (r.capabilities, r.guessed) == if own.capabilities == None then (lower.capabilities, lower.guessed) else (own.capabilities, own.guessed)
  {
    if own.contextWindow != 0 && own.outputLimit != 0 && own.tokenizerType != "" && own.family != "" && own.capabilities.Some? {
      return own;
    }
    r := own;
    if own.contextWindow == 0 {
      r := r.(contextWindow := lower.contextWindow);
    }
    if own.outputLimit == 0 {
      r := r.(outputLimit := lower.outputLimit);
    }
    if own.tokenizerType == "" {
      r := r.(tokenizerType := lower.tokenizerType);
    }
    if own.family == "" {
      r := r.(family := lower.family);
    }
    if own.capabilities.None? {
      r := r.(capabilities := lower.capabilities, guessed := lower.guessed);
    }
  }

  // The indexed lookup answers like three scans in order: overrides, observed entries, the built-in catalog. An
  // override and an observed entry are completed from the tiers below them.
  method FuzzyLookup(model: string, ghost overrides: map<string, Metadata>, ghost runtime: map<string, Metadata>,
    ghost builtIn: map<string, Metadata>, overridesIndex: map<string, Metadata>, runtimeIndex: map<string, Metadata>,
    builtInIndex: map<string, Metadata>, belowOverrides: Metadata, belowRuntime: Metadata)
    returns (r: Option<Metadata>)
    requires IsIndex(overrides, overridesIndex) && IsIndex(runtime, runtimeIndex) && IsIndex(builtIn, builtInIndex)
    ensures NormalizeModelID(model) == "" ==> r == None
    ensures var n := NormalizeModelID(model);
            n != "" ==>
              if !ScanAnswers(overrides, n, None) then
                exists v :: ScanAnswers(overrides, n, Some(v)) && r == Some(Enriched(v, belowOverrides))
              else if !ScanAnswers(runtime, n, None) then
                exists v :: ScanAnswers(runtime, n, Some(v)) && r == Some(Enriched(v, belowRuntime))
              else ScanAnswers(builtIn, n, r)
  {
    hide NormalizeModelID, IsIndex, ScanAnswers;
    var want := NormalizeModelID(model);
    if want == "" {
      return None;
    }
    IndexAnswers(overrides, overridesIndex, want);
    IndexAnswers(runtime, runtimeIndex, want);
    IndexAnswers(builtIn, builtInIndex, want);
    if want in overridesIndex {
      ScanOne(overrides, want, overridesIndex[want]);
      var full := EnrichPartialWith(overridesIndex[want], belowOverrides);
      return Some(full);
    }
    if want in runtimeIndex {
      ScanOne(runtime, want, runtimeIndex[want]);
      var full := EnrichPartialWith(runtimeIndex[want], belowRuntime);
      return Some(full);
    }
    return if want in builtInIndex then Some(builtInIndex[want]) else None;
  }

  lemma ScanOne<V>(m: map<string, V>, n: string, v: V)
    requires ScanAnswers(m, n, Some(v))
    ensures !ScanAnswers(m, n, None)
  {
    hide NormalizeModelID, KeyLess;
  }

  // Next to its base, a decorated spelling never wins its class.
  lemma BaseBeatsDecorated(keys: set<string>, base: string, p: string)
    requires Decoration(p) && base in keys
    ensures !IsWinner(keys, NormalizeModelID(base), base + p)
  {
    hide NormalizeModelID, Recognized, LexLess;
    DecorationInvisible(base, p);
    RecognizedShaped(ToLower(p));
    PrefixFirst(ToLower(base), ToLower(p));
    assert ToLower(base + p) == ToLower(base) + ToLower(p);
    LexTotal(ToLower(base), ToLower(base + p));
  }
}
