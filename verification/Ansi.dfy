/** Coloured text: SGR escapes translated to lightweight tags, tags parsed into styled segments. */
module Ansi {
  import opened Sums

  const ESC: char := '\U{1B}'

  // ---- Names and SGR codes ----

  const COLORS := ["black", "red", "green", "yellow", "blue", "magenta", "cyan", "white"]

  /** What one SGR parameter asks for. */
  datatype Sgr = Reset | Push(name: string) | Unknown

  function SgrOf(code: nat): Sgr {
    if code == 0 then Reset
    else if code == 1 then Push("bold")
    else if code == 2 then Push("dim")
    else if code == 3 then Push("italic")
    else if code == 4 then Push("underline")
    else if 30 <= code <= 37 then Push(COLORS[code - 30])
    else if 90 <= code <= 97 then Push("bright-" + COLORS[code - 90])
    else Unknown
  }

  predicate ValidTag(name: string) {
    || name in COLORS
    || name == "bold" || name == "dim" || name == "italic" || name == "underline"
    || (|name| > 7 && name[..7] == "bright-" && name[7..] in COLORS)
  }

  // ---- The two patterns ----

  predicate IsParam(c: char) { '0' <= c <= '9' || c == ';' }

  /** Length of the longest run of parameter characters. */
  function ParamLen(s: string): (n: nat)
    ensures n <= |s| && (n < |s| ==> !IsParam(s[n])) && forall i :: 0 <= i < n ==> IsParam(s[i])
  {
    if s == "" || !IsParam(s[0]) then 0 else 1 + ParamLen(s[1..])
  }

  /** Length of the SGR sequence the string starts with, 0 if it starts with none. */
  function SgrLen(s: string): (n: nat)
    ensures n <= |s| && (n > 0 ==> n >= 3 && s[0] == ESC && s[1] == '[' && s[n - 1] == 'm')
    ensures n > 0 ==> forall i :: 2 <= i < n ==> s[i] != '[' && s[i] != ESC
  {
    if |s| < 2 || s[0] != ESC || s[1] != '[' then 0
    else
      var p := ParamLen(s[2..]);
      assert forall i :: 0 <= i < p ==> s[2..][i] == s[2 + i];
      if 2 + p < |s| && s[2 + p] == 'm' then 3 + p else 0
  }

  /** The parameters as numbers; a missing one is 0. */
  function Numbers(p: string, acc: nat): seq<nat>
    requires forall i :: 0 <= i < |p| ==> IsParam(p[i])
  {
    if p == "" then [acc]
    else
      assert IsParam(p[0]);
      if p[0] == ';' then [acc] + Numbers(p[1..], 0)
      else Numbers(p[1..], 10 * acc + (p[0] as int - '0' as int))
  }

  function Codes(s: string): seq<nat>
    requires SgrLen(s) > 0
  {
    Numbers(s[2..][..ParamLen(s[2..])], 0)
  }

  predicate IsLower(c: char) { 'a' <= c <= 'z' }
  predicate IsNameChar(c: char) { IsLower(c) || c == '-' }

  function RunLen(s: string): (n: nat)
    ensures n <= |s|
  {
    if s == "" || !IsNameChar(s[0]) then 0 else 1 + RunLen(s[1..])
  }

  /** Length of the name the string starts with. */
  function NameLen(s: string): (n: nat)
    ensures n <= |s|
  {
    if s == "" || !IsLower(s[0]) then 0 else RunLen(s)
  }

  datatype Tag = NoTag | Tag(close: bool, name: string, len: nat)

  /** The tag the string starts with: a bracket, an optional slash, an optional name, another
      optional slash, a bracket. */
  function TagAt(s: string): (t: Tag)
    ensures t.Tag? ==> 2 <= t.len <= |s| && s[0] == '['
  {
    if s == "" || s[0] != '[' then NoTag
    else
      var a := if |s| > 1 && s[1] == '/' then 2 else 1;
      var b := a + NameLen(s[a..]);
      var c := if b < |s| && s[b] == '/' then b + 1 else b;
      if c < |s| && s[c] == ']' then Tag(a == 2, s[a..b], c + 1) else NoTag
  }

  // ---- Meaning: every visible character with its style stack ----

  type Style = seq<string>
  datatype Glyph = Glyph(c: char, style: Style)

  function Glyphs(s: string, style: Style): seq<Glyph> {
    seq(|s|, i requires 0 <= i < |s| => Glyph(s[i], style))
  }

  function ApplyCode(code: nat, style: Style): Style {
    match SgrOf(code)
    case Reset => []
    case Push(name) => style + [name]
    case Unknown => style
  }

  function ApplyCodes(codes: seq<nat>, style: Style): Style {
    if codes == [] then style else ApplyCodes(codes[1..], ApplyCode(codes[0], style))
  }

  /** Direct interpretation of the escapes. */
  function Interpret(s: string, style: Style): seq<Glyph>
    decreases |s|
  {
    if s == "" then []
    else if SgrLen(s) > 0 then Interpret(s[SgrLen(s)..], ApplyCodes(Codes(s), style))
    else [Glyph(s[0], style)] + Interpret(s[1..], style)
  }

  function LastIndexOf(style: Style, name: string): (i: int)
    ensures -1 <= i < |style| && (i >= 0 ==> style[i] == name)
  {
    if style == [] then -1
    else if style[|style| - 1] == name then |style| - 1
    else LastIndexOf(style[..|style| - 1], name)
  }

  /** The stack after a tag, or nothing if the tag is kept as text. */
  datatype Effect = Keep | Become(style: Style)

  function EffectOf(t: Tag, style: Style): Effect
    requires t.Tag?
  {
    if t.close then
      if t.name == "" then Become([])
      else if ValidTag(t.name) then
        var i := LastIndexOf(style, t.name);
        Become(if i == -1 then style else style[..i] + style[i + 1..])
      else Keep
    else if t.name == "reset" then Become([])
    else if ValidTag(t.name) then Become(style + [t.name])
    else Keep
  }

  /** What the tagged text shows. */
  function Styled(s: string, style: Style): seq<Glyph>
    decreases |s|
  {
    if s == "" then []
    else
      var t := TagAt(s);
      if t.NoTag? then [Glyph(s[0], style)] + Styled(s[1..], style)
      else match EffectOf(t, style)
        case Keep => Glyphs(s[..t.len], style) + Styled(s[t.len..], style)
        case Become(style') => Styled(s[t.len..], style')
  }

  /** The stack the parser ends with. */
  function FinalStack(s: string, style: Style): Style
    decreases |s|
  {
    if s == "" then style
    else
      var t := TagAt(s);
      if t.NoTag? then FinalStack(s[1..], style)
      else match EffectOf(t, style)
        case Keep => FinalStack(s[t.len..], style)
        case Become(style') => FinalStack(s[t.len..], style')
  }

  // ---- The translation ----

  function Open(name: string): string { "[" + name + "]" }
  function Shut(name: string): string { "[/" + name + "]" }

  /** Close every active name, innermost first. */
  function ShutAll(active: Style): string {
    if active == [] then "" else Shut(active[|active| - 1]) + ShutAll(active[..|active| - 1])
  }

  function Emit(code: nat, active: Style): string {
    match SgrOf(code)
    case Reset => ShutAll(active)
    case Push(name) => Open(name)
    case Unknown => ""
  }

  function EmitAll(codes: seq<nat>, active: Style): string {
    if codes == [] then "" else Emit(codes[0], active) + EmitAll(codes[1..], ApplyCode(codes[0], active))
  }

  /** The tagged form of a text while some names are active. */
  function Tagged(s: string, active: Style): string
    decreases |s|
  {
    if s == "" then ShutAll(active)
    else if SgrLen(s) > 0 then EmitAll(Codes(s), active) + Tagged(s[SgrLen(s)..], ApplyCodes(Codes(s), active))
    else [s[0]] + Tagged(s[1..], active)
  }

  /** The first position from i on where an SGR sequence starts, or the end. */
  function NextSgr(s: string, i: nat): (j: nat)
    requires i <= |s|
    ensures i <= j <= |s| && (j < |s| ==> SgrLen(s[j..]) > 0)
    ensures forall k :: i <= k < j ==> SgrLen(s[k..]) == 0
    decreases |s| - i
  {
    if i == |s| || SgrLen(s[i..]) > 0 then i else NextSgr(s, i + 1)
  }

  lemma {:induction false} TaggedText(s: string, i: nat, j: nat, active: Style)
    requires i <= j <= |s| && forall k :: i <= k < j ==> SgrLen(s[k..]) == 0
    ensures Tagged(s[i..], active) == s[i..j] + Tagged(s[j..], active)
    decreases j - i
  {
    hide SgrLen, Tagged;
    if i == j {
      assert s[i..j] == "";
    } else {
      TaggedText(s, i + 1, j, active);
      DropDrop(s, i, 1);
      SliceStep(s, i, j);
      TaggedChar(s[i..], active);
      assert [s[i]] + (s[i + 1..j] + Tagged(s[j..], active)) == [s[i]] + s[i + 1..j] + Tagged(s[j..], active);
    }
  }

  lemma TaggedChar(s: string, active: Style)
    requires s != "" && SgrLen(s) == 0
    ensures Tagged(s, active) == [s[0]] + Tagged(s[1..], active)
  {
  }

  /** The loop that closes every active name. */
  method CloseActive(start: string, active: Style) returns (result: string)
    ensures result == start + ShutAll(active)
  {
    result := start;
    var i := |active|;
    assert active[..i] == active;
    while i > 0
      invariant 0 <= i <= |active| && result + ShutAll(active[..i]) == start + ShutAll(active)
    {
      assert active[..i][..i - 1] == active[..i - 1];
      i := i - 1;
      assert result + (Shut(active[i]) + ShutAll(active[..i])) == result + Shut(active[i]) + ShutAll(active[..i]);
      result := result + Shut(active[i]);
    }
  }

  /** One parameter: a reset closes every name, a known code opens one, the rest are ignored. */
  method EmitCode(start: string, startNames: Style, code: nat) returns (result: string, activeNames: Style)
    ensures result == start + Emit(code, startNames) && activeNames == ApplyCode(code, startNames)
  {
    result, activeNames := start, startNames;
    match SgrOf(code)
    case Reset =>
      result := CloseActive(result, activeNames);
      activeNames := [];
    case Push(name) =>
      result := result + Open(name);
      activeNames := activeNames + [name];
    case Unknown =>
  }

  /** The loop over the parameters of one escape. */
  method EmitCodes(start: string, startNames: Style, params: seq<nat>) returns (result: string, activeNames: Style)
    ensures result == start + EmitAll(params, startNames) && activeNames == ApplyCodes(params, startNames)
  {
    hide Emit, ApplyCode;
    result, activeNames := start, startNames;
    assert params[0..] == params;
    for k := 0 to |params|
      invariant result + EmitAll(params[k..], activeNames) == start + EmitAll(params, startNames)
      invariant ApplyCodes(params[k..], activeNames) == ApplyCodes(params, startNames)
    {
      EmitNext(params, k, activeNames, result);
      result, activeNames := EmitCode(result, activeNames, params[k]);
    }
  }

  method AnsiEscapesToTags(input: string) returns (result: string)
    ensures result == Tagged(input, [])
  {
    hide Tagged, EmitAll, ApplyCodes, ShutAll, Codes, SgrLen, NextSgr;
    var activeNames: Style := [];
    result := "";
    var lastIndex := 0;
    assert input[0..] == input;
    while NextSgr(input, lastIndex) < |input|
      invariant 0 <= lastIndex <= |input|
      invariant result + Tagged(input[lastIndex..], activeNames) == Tagged(input, [])
      decreases |input| - lastIndex
    {
      var at := NextSgr(input, lastIndex);
      TaggedText(input, lastIndex, at, activeNames);
      assert result + (input[lastIndex..at] + Tagged(input[at..], activeNames)) == result + input[lastIndex..at] + Tagged(input[at..], activeNames);
      result := result + input[lastIndex..at];
      ghost var start, before := activeNames, result;
      result, activeNames := EmitCodes(result, activeNames, Codes(input[at..]));
      lastIndex := at + SgrLen(input[at..]);
      TaggedSgr(input, at, lastIndex, start, before);
    }
    TaggedText(input, lastIndex, |input|, activeNames);
    assert input[lastIndex..|input|] == input[lastIndex..] && input[|input|..] == "";
    TaggedEnd(activeNames);
    assert result + (input[lastIndex..] + ShutAll(activeNames)) == result + input[lastIndex..] + ShutAll(activeNames);
    result := result + input[lastIndex..];
    result := CloseActive(result, activeNames);
  }

  lemma TaggedEnd(active: Style)
    ensures Tagged("", active) == ShutAll(active)
  {
  }

  lemma EmitNext(params: seq<nat>, k: nat, active: Style, result: string)
    requires k < |params|
    ensures result + EmitAll(params[k..], active) == result + Emit(params[k], active) + EmitAll(params[k + 1..], ApplyCode(params[k], active))
    ensures ApplyCodes(params[k..], active) == ApplyCodes(params[k + 1..], ApplyCode(params[k], active))
  {
    assert params[k..][1..] == params[k + 1..];
  }

  lemma TaggedSgr(input: string, at: nat, end: nat, active: Style, before: string)
    requires at < |input| && SgrLen(input[at..]) > 0 && end == at + SgrLen(input[at..])
    ensures before + EmitAll(Codes(input[at..]), active) + Tagged(input[end..], ApplyCodes(Codes(input[at..]), active))
            == before + Tagged(input[at..], active)
  {
    hide SgrLen, Codes, EmitAll, ApplyCodes;
    DropDrop(input, at, SgrLen(input[at..]));
    var e, rest := EmitAll(Codes(input[at..]), active), Tagged(input[end..], ApplyCodes(Codes(input[at..]), active));
    assert Tagged(input[at..], active) == e + rest;
    assert before + e + rest == before + (e + rest);
  }

  // ---- The parser ----

  datatype Segment = Segment(text: string, classes: Style)

  /** The glyphs of a list of segments; the class of a name is the name with a prefix, so names
      stand for classes here. */
  function SegmentGlyphs(segments: seq<Segment>): seq<Glyph> {
    if segments == [] then []
    else SegmentGlyphs(segments[..|segments| - 1]) + Glyphs(segments[|segments| - 1].text, segments[|segments| - 1].classes)
  }

  lemma SegmentGlyphsStep(segments: seq<Segment>, s: Segment)
    ensures SegmentGlyphs(segments + [s]) == SegmentGlyphs(segments) + Glyphs(s.text, s.classes)
  {
    assert (segments + [s])[..|segments|] == segments;
  }

  function NextTag(s: string, i: nat): (j: nat)
    requires i <= |s|
    ensures i <= j <= |s| && (j < |s| ==> TagAt(s[j..]).Tag?)
    ensures forall k :: i <= k < j ==> TagAt(s[k..]).NoTag?
    decreases |s| - i
  {
    if i == |s| || TagAt(s[i..]).Tag? then i else NextTag(s, i + 1)
  }

  lemma {:induction false} StyledText(s: string, i: nat, j: nat, style: Style)
    requires i <= j <= |s| && forall k :: i <= k < j ==> TagAt(s[k..]).NoTag?
    ensures Styled(s[i..], style) == Glyphs(s[i..j], style) + Styled(s[j..], style)
    ensures FinalStack(s[i..], style) == FinalStack(s[j..], style)
    decreases j - i
  {
    hide TagAt, Styled, FinalStack, Glyphs;
    if i == j {
      assert s[i..j] == "";
      NoGlyphs(style);
    } else {
      StyledText(s, i + 1, j, style);
      DropDrop(s, i, 1);
      SliceStep(s, i, j);
      StyledChar(s[i..], style);
      GlyphsCons(s[i], s[i + 1..j], style);
      assert [Glyph(s[i], style)] + (Glyphs(s[i + 1..j], style) + Styled(s[j..], style))
          == [Glyph(s[i], style)] + Glyphs(s[i + 1..j], style) + Styled(s[j..], style);
    }
  }

  lemma NoGlyphs(style: Style)
    ensures Glyphs("", style) == []
  {
  }

  lemma GlyphsCons(c: char, s: string, style: Style)
    ensures Glyphs([c] + s, style) == [Glyph(c, style)] + Glyphs(s, style)
  {
  }

  lemma StyledChar(s: string, style: Style)
    requires s != "" && TagAt(s).NoTag?
    ensures Styled(s, style) == [Glyph(s[0], style)] + Styled(s[1..], style) && FinalStack(s, style) == FinalStack(s[1..], style)
  {
    hide TagAt;
  }

  lemma StyledStart(s: string, style: Style)
    requires TagAt(s).Tag?
    ensures var t := TagAt(s); var rest := s[t.len..];
            match EffectOf(t, style)
            case Keep => Styled(s, style) == Glyphs(s[..t.len], style) + Styled(rest, style) && FinalStack(s, style) == FinalStack(rest, style)
            case Become(style') => Styled(s, style) == Styled(rest, style') && FinalStack(s, style) == FinalStack(rest, style')
  {
    hide TagAt, EffectOf, Glyphs;
  }

  lemma StyledTag(s: string, i: nat, style: Style)
    requires i < |s| && TagAt(s[i..]).Tag?
    ensures var t := TagAt(s[i..]); var rest := s[i + t.len..];
            match EffectOf(t, style)
            case Keep => Styled(s[i..], style) == Glyphs(s[i..i + t.len], style) + Styled(rest, style) && FinalStack(s[i..], style) == FinalStack(rest, style)
            case Become(style') => Styled(s[i..], style) == Styled(rest, style') && FinalStack(s[i..], style) == FinalStack(rest, style')
  {
    hide TagAt, Styled, FinalStack, Glyphs, EffectOf;
    var t := TagAt(s[i..]);
    StyledStart(s[i..], style);
    DropDrop(s, i, t.len);
    TakeOfDrop(s, i, t.len);
  }

  lemma TakeOfDrop(s: string, i: nat, n: nat)
    requires i + n <= |s|
    ensures s[i..][..n] == s[i..i + n]
  {
  }

  /** A tag changes the stack or, if it is not known, becomes a segment of its own. */
  method TakeTag(input: string, at: nat, start: seq<Segment>, startStack: Style) returns (segments: seq<Segment>, stack: Style, lastIndex: nat)
    requires at < |input| && TagAt(input[at..]).Tag? && forall s :: s in start ==> s.text != ""
    ensures at < lastIndex <= |input| && forall s :: s in segments ==> s.text != ""
    ensures SegmentGlyphs(segments) + Styled(input[lastIndex..], stack) == SegmentGlyphs(start) + Styled(input[at..], startStack)
    ensures FinalStack(input[lastIndex..], stack) == FinalStack(input[at..], startStack)
  {
    hide SegmentGlyphs, Styled, FinalStack, TagAt, ValidTag;
    segments, stack := start, startStack;
    var t := TagAt(input[at..]);
    StyledTag(input, at, stack);
    lastIndex := at + t.len;
    if t.close {
      if t.name == "" {
        stack := [];
      } else if ValidTag(t.name) {
        var idx := LastIndexOf(stack, t.name);
        if idx != -1 { stack := stack[..idx] + stack[idx + 1..]; }
      } else {
        SegmentGlyphsStep(segments, Segment(input[at..lastIndex], stack));
        segments := segments + [Segment(input[at..lastIndex], stack)];
      }
    } else if t.name == "reset" {
      stack := [];
    } else if ValidTag(t.name) {
      stack := stack + [t.name];
    } else {
      SegmentGlyphsStep(segments, Segment(input[at..lastIndex], stack));
      segments := segments + [Segment(input[at..lastIndex], stack)];
    }
  }

  /** Segments that show exactly what the tagged text shows, none of them empty. */
  method ParseTaggedText(input: string) returns (segments: seq<Segment>, ghost final: Style)
    ensures SegmentGlyphs(segments) == Styled(input, []) && final == FinalStack(input, [])
    ensures forall s :: s in segments ==> s.text != ""
  {
    hide SegmentGlyphs, Styled, FinalStack, TagAt, NextTag;
    segments := [];
    var stack: Style := [];
    var lastIndex := 0;
    assert input[0..] == input;
    NoSegmentGlyphs();
    while NextTag(input, lastIndex) < |input|
      invariant 0 <= lastIndex <= |input|
      invariant SegmentGlyphs(segments) + Styled(input[lastIndex..], stack) == Styled(input, [])
      invariant FinalStack(input[lastIndex..], stack) == FinalStack(input, [])
      invariant forall s :: s in segments ==> s.text != ""
      decreases |input| - lastIndex
    {
      var at := NextTag(input, lastIndex);
      segments := PushText(input, lastIndex, at, segments, stack);
      segments, stack, lastIndex := TakeTag(input, at, segments, stack);
    }
    segments := PushText(input, lastIndex, |input|, segments, stack);
    assert input[|input|..] == "";
    NothingLeft(stack);
    final := stack;
  }

  lemma NoSegmentGlyphs()
    ensures SegmentGlyphs([]) == []
  {
  }

  lemma NothingLeft(style: Style)
    ensures Styled("", style) == [] && FinalStack("", style) == style
  {
  }

  /** The text between two tags becomes a segment unless it is empty. */
  method PushText(input: string, i: nat, j: nat, start: seq<Segment>, stack: Style) returns (segments: seq<Segment>)
    requires i <= j <= |input| && (forall k :: i <= k < j ==> TagAt(input[k..]).NoTag?) && forall s :: s in start ==> s.text != ""
    ensures SegmentGlyphs(segments) + Styled(input[j..], stack) == SegmentGlyphs(start) + Styled(input[i..], stack)
    ensures FinalStack(input[j..], stack) == FinalStack(input[i..], stack)
    ensures forall s :: s in segments ==> s.text != ""
  {
    hide TagAt, Styled, FinalStack, Glyphs, SegmentGlyphs;
    StyledText(input, i, j, stack);
    segments := start;
    var before := input[i..j];
    if before != "" {
      SegmentGlyphsStep(start, Segment(before, stack));
      segments := segments + [Segment(before, stack)];
      assert SegmentGlyphs(start) + (Glyphs(before, stack) + Styled(input[j..], stack))
          == SegmentGlyphs(start) + Glyphs(before, stack) + Styled(input[j..], stack);
    } else {
      NoGlyphs(stack);
    }
  }

  // ---- The translation preserves the meaning ----

  /** Every bracket of the text belongs to an SGR sequence. */
  ghost predicate OnlySgr(s: string) {
    forall i :: 0 <= i < |s| && s[i] == '[' ==> i > 0 && SgrLen(s[i - 1..]) > 0
  }

  lemma OnlySgrRest(s: string)
    requires s != "" && OnlySgr(s)
    ensures SgrLen(s) > 0 ==> OnlySgr(s[SgrLen(s)..])
    ensures SgrLen(s) == 0 ==> s[0] != '[' && OnlySgr(s[1..])
  {
    hide SgrLen;
    var n := if SgrLen(s) > 0 then SgrLen(s) else 1;
    assert s[0..] == s;
    forall i | 0 <= i < |s[n..]| && s[n..][i] == '[' ensures i > 0 && SgrLen(s[n..][i - 1..]) > 0 {
      assert SgrLen(s[n + i - 1..]) > 0;
      assert s[n + i - 1..][0] == s[n + i - 1] == ESC;
      if i > 0 { assert s[n..][i - 1..] == s[n + i - 1..]; }
    }
  }

  /** All characters of a name are name characters, and the first is a letter. */
  predicate IsName(name: string) {
    name != "" && IsLower(name[0]) && forall i :: 0 <= i < |name| ==> IsNameChar(name[i])
  }

  lemma CodeNames(code: nat)
    ensures SgrOf(code).Push? ==> IsName(SgrOf(code).name) && ValidTag(SgrOf(code).name) && SgrOf(code).name != "reset"
  {
    if 30 <= code <= 37 {
      ColorIsName(code - 30);
    } else if 90 <= code <= 97 {
      ColorIsName(code - 90);
      var name := "bright-" + COLORS[code - 90];
      assert name[..7] == "bright-" && name[7..] == COLORS[code - 90];
      forall i | 0 <= i < |name| ensures IsNameChar(name[i]) {
        if i >= 7 { assert name[i] == COLORS[code - 90][i - 7]; }
      }
    }
  }

  lemma ColorIsName(k: nat)
    requires k < |COLORS|
    ensures IsName(COLORS[k]) && COLORS[k] != "reset" && |COLORS[k]| > 0
  {
    if k == 0 { assert COLORS[k] == "black"; }
    else if k == 1 { assert COLORS[k] == "red"; }
    else if k == 2 { assert COLORS[k] == "green"; }
    else if k == 3 { assert COLORS[k] == "yellow"; }
    else if k == 4 { assert COLORS[k] == "blue"; }
    else if k == 5 { assert COLORS[k] == "magenta"; }
    else if k == 6 { assert COLORS[k] == "cyan"; }
    else { assert COLORS[k] == "white"; }
  }

  lemma {:induction false} RunOfName(name: string, rest: string)
    requires (forall i :: 0 <= i < |name| ==> IsNameChar(name[i])) && (rest == "" || !IsNameChar(rest[0]))
    ensures RunLen(name + rest) == |name|
  {
    if name == "" {
      assert name + rest == rest;
    } else {
      assert (name + rest)[1..] == name[1..] + rest;
      RunOfName(name[1..], rest);
    }
  }

  /** A bracket, a name and a bracket, after an optional slash. */
  lemma BracketedName(s: string, a: nat, name: string, rest: string)
    requires IsName(name) && 1 <= a <= 2 && |s| >= a && s[0] == '[' && (a == 2 <==> |s| > 1 && s[1] == '/')
    requires s[a..] == name + ("]" + rest)
    ensures TagAt(s) == Tag(a == 2, name, a + |name| + 1) && s[a + |name| + 1..] == rest
  {
    RunOfName(name, "]" + rest);
    var b := a + |name|;
    assert s[a..][0] == name[0] && s[a..][|name|] == ']';
    assert s[a..b] == s[a..][..|name|] == name && s[b] == ']';
    hide RunLen;
    assert s[b + 1..] == s[a..][|name| + 1..] == rest;
  }

  lemma OpenTag(name: string, rest: string)
    requires IsName(name)
    ensures TagAt(Open(name) + rest) == Tag(false, name, |Open(name)|)
    ensures (Open(name) + rest)[|Open(name)|..] == rest
  {
    hide TagAt;
    var s := Open(name) + rest;
    assert s[1..] == name + ("]" + rest);
    assert s[1] == name[0] && name[0] != '/';
    BracketedName(s, 1, name, rest);
  }

  lemma ShutTag(name: string, rest: string)
    requires IsName(name)
    ensures TagAt(Shut(name) + rest) == Tag(true, name, |Shut(name)|)
    ensures (Shut(name) + rest)[|Shut(name)|..] == rest
  {
    hide TagAt;
    var s := Shut(name) + rest;
    assert s[0] == '[' && s[1] == '/';
    assert s[2..] == name + ("]" + rest);
    BracketedName(s, 2, name, rest);
  }

  /** Names that came from SGR codes. */
  ghost predicate Known(style: Style) {
    forall i :: 0 <= i < |style| ==> IsName(style[i]) && ValidTag(style[i]) && style[i] != "reset"
  }

  /** Closing every name, innermost first, pops the whole stack. */
  lemma {:induction false} ShutAllPops(style: Style, rest: string)
    requires Known(style)
    ensures Styled(ShutAll(style) + rest, style) == Styled(rest, [])
    ensures FinalStack(ShutAll(style) + rest, style) == FinalStack(rest, [])
  {
    if style == [] {
      assert ShutAll(style) + rest == rest;
    } else {
      var front, name := style[..|style| - 1], style[|style| - 1];
      var more := ShutAll(front) + rest;
      assert ShutAll(style) + rest == Shut(name) + more;
      ShutTag(name, more);
      assert LastIndexOf(style, name) == |style| - 1;
      assert style[..|style| - 1] + style[|style|..] == front;
      ShutAllPops(front, rest);
    }
  }

  lemma EmitStyles(code: nat, style: Style, rest: string)
    requires Known(style)
    ensures Known(ApplyCode(code, style))
    ensures Styled(Emit(code, style) + rest, style) == Styled(rest, ApplyCode(code, style))
    ensures FinalStack(Emit(code, style) + rest, style) == FinalStack(rest, ApplyCode(code, style))
  {
    CodeNames(code);
    match SgrOf(code)
    case Reset => ShutAllPops(style, rest);
    case Push(name) => OpenTag(name, rest);
    case Unknown => assert Emit(code, style) + rest == rest;
  }

  lemma {:induction false} EmitAllStyles(codes: seq<nat>, style: Style, rest: string)
    requires Known(style)
    ensures Known(ApplyCodes(codes, style))
    ensures Styled(EmitAll(codes, style) + rest, style) == Styled(rest, ApplyCodes(codes, style))
    ensures FinalStack(EmitAll(codes, style) + rest, style) == FinalStack(rest, ApplyCodes(codes, style))
  {
    if codes == [] {
      assert EmitAll(codes, style) + rest == rest;
    } else {
      var more := EmitAll(codes[1..], ApplyCode(codes[0], style)) + rest;
      assert EmitAll(codes, style) + rest == Emit(codes[0], style) + more;
      EmitStyles(codes[0], style, more);
      EmitAllStyles(codes[1..], ApplyCode(codes[0], style), rest);
    }
  }

  /** Parsing the translation shows every character as the escapes say, and leaves no tag open. */
  lemma {:induction false} TranslationPreservesStyle(s: string, style: Style)
    requires OnlySgr(s) && Known(style)
    ensures Styled(Tagged(s, style), style) == Interpret(s, style)
    ensures FinalStack(Tagged(s, style), style) == []
    decreases |s|
  {
    hide SgrLen, Codes, OnlySgr, Known;
    if s == "" {
      ShutAllPops(style, "");
      assert ShutAll(style) + "" == ShutAll(style);
    } else {
      OnlySgrRest(s);
      if SgrLen(s) > 0 {
        var rest, style' := s[SgrLen(s)..], ApplyCodes(Codes(s), style);
        EmitAllStyles(Codes(s), style, Tagged(rest, style'));
        TranslationPreservesStyle(rest, style');
      } else {
        var tail := Tagged(s[1..], style);
        assert ([s[0]] + tail)[1..] == tail;
        TranslationPreservesStyle(s[1..], style);
      }
    }
  }
}
