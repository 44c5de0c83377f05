/** Which texts are tags, and what each tag does to the styles in force. */
module Tags {
  import opened Ansi
  import opened Numerals
  import Stripping

  /** Nothing, or a lower-case letter and then lower-case letters and hyphens. */
  predicate TagName(name: string) {
    name == "" || (('a' <= name[0] <= 'z') && forall i :: 0 <= i < |name| ==> 'a' <= name[i] <= 'z' || name[i] == '-')
  }

  /** A bracket, an optional slash, the name, an optional slash and a bracket. */
  function Written(close: bool, name: string, trail: bool): string {
    (if close then "[/" else "[") + name + (if trail then "/]" else "]")
  }

  lemma NameRead(name: string, rest: string)
    requires TagName(name) && rest != "" && (rest[0] == '/' || rest[0] == ']')
    ensures NameLen(name + rest) == |name|
  {
    if name == "" {
      assert name + rest == rest;
    } else {
      RunOfName(name, rest);
    }
  }

  /** Every text of this form is a tag; the slash of `[/]` counts as the first one. */
  lemma WrittenIsTag(close: bool, name: string, trail: bool, rest: string)
    requires TagName(name) && (trail && !close ==> name != "")
    ensures TagAt(Written(close, name, trail) + rest) == Tag(close, name, |Written(close, name, trail)|)
  {
    hide TagAt, NameLen, RunLen;
    var s, a := Written(close, name, trail) + rest, if close then 2 else 1;
    var after := (if trail then "/]" else "]") + rest;
    assert s[a..] == name + after;
    NameRead(name, after);
    assert close <==> s[1] == '/';
    var b := a + |name|;
    assert s[b..] == after;
    assert s[b] == after[0] && (trail ==> s[b + 1] == after[1]);
    Stripping.TagOf(s, close, trail, |name|);
    assert s[a..b] == name;
  }

  /** And every tag is a text of this form. */
  lemma TagIsWritten(s: string) returns (trail: bool)
    requires TagAt(s).Tag?
    ensures var t := TagAt(s); TagName(t.name) && s[..t.len] == Written(t.close, t.name, trail) && (trail && !t.close ==> t.name != "")
  {
    var t := TagAt(s);
    Stripping.TagParts(s);
    trail := Stripping.Trailing(t);
    var a := if t.close then 2 else 1;
    NameChars(s[a..]);
    assert s[0] == '[';
    assert s[a..][..|t.name|] == s[a..a + |t.name|];
    hide TagAt, NameLen, RunLen, TagName;
    WrittenAt(s, t.close, t.name, trail);
  }

  lemma WrittenAt(s: string, close: bool, name: string, trail: bool)
    requires var a, b := if close then 2 else 1, (if close then 2 else 1) + |name|;
             && b + (if trail then 2 else 1) <= |s| && s[0] == '[' && (close ==> s[1] == '/') && s[a..b] == name
             && (if trail then s[b] == '/' && s[b + 1] == ']' else s[b] == ']')
    ensures s[..|Written(close, name, trail)|] == Written(close, name, trail)
  {
    var a, b, w := if close then 2 else 1, (if close then 2 else 1) + |name|, Written(close, name, trail);
    forall i | 0 <= i < |w| ensures s[i] == w[i] {
      if a <= i < b { assert s[i] == s[a..b][i - a]; }
    }
  }

  lemma NameChars(s: string)
    ensures TagName(s[..NameLen(s)])
  {
    Stripping.RunChars(s);
  }

  /** What a tag does: `[/]` and `[reset]` end every style, a known name begins one, and its closing tag
      ends the one begun last; everything else is text. */
  lemma TagMeans(close: bool, name: string, len: nat, before: Style, after: Style)
    ensures close && name == "" ==> EffectOf(Tag(close, name, len), before) == Become([])
    ensures !close && name == "reset" ==> EffectOf(Tag(close, name, len), before) == Become([])
    ensures !close && ValidTag(name) ==> EffectOf(Tag(close, name, len), before) == Become(before + [name])
    ensures close && ValidTag(name) && name !in after ==>
            EffectOf(Tag(close, name, len), before + [name] + after) == Become(before + after)
    ensures close && ValidTag(name) && name !in before ==> EffectOf(Tag(close, name, len), before) == Become(before)
    ensures (if close then name != "" else name != "reset") && !ValidTag(name) ==> EffectOf(Tag(close, name, len), before) == Keep
  {
    SpecialNames();
    if close && ValidTag(name) && name !in after {
      LastIs(before, name, after);
      var style := before + [name] + after;
      assert style[..|before|] == before && style[|before| + 1..] == after;
    }
    if name !in before { NoLast(before, name); }
    hide ValidTag, LastIndexOf;
  }

  lemma SpecialNames()
    ensures !ValidTag("") && !ValidTag("reset")
  {
    forall k | 0 <= k < 8 ensures COLORS[k] != "reset" && COLORS[k] != "" {
      ColorIsOther(k);
    }
  }

  lemma ColorIsOther(k: nat)
    requires k < 8
    ensures COLORS[k] != "reset" && COLORS[k] != ""
  {
    if k == 1 {
      assert |COLORS[k]| == 3;
    }
  }

  lemma {:induction false} LastIs(before: Style, name: string, after: Style)
    requires name !in after
    ensures LastIndexOf(before + [name] + after, name) == |before|
  {
    var style := before + [name] + after;
    if after == [] {
      assert style[|style| - 1] == name;
    } else {
      var front := after[..|after| - 1];
      assert style[|style| - 1] == after[|after| - 1];
      assert style[..|style| - 1] == before + [name] + front;
      LastIs(before, name, front);
    }
  }

  lemma {:induction false} NoLast(style: Style, name: string)
    requires name !in style
    ensures LastIndexOf(style, name) == -1
  {
    if style != [] {
      NoLast(style[..|style| - 1], name);
    }
  }

  // ---- Which path a text takes, and stripping ----

  lemma EscapeAt(s: string, i: nat)
    requires i + 1 < |s| && s[i] == ESC && s[i + 1] == '['
    ensures s == s[..i] + [ESC, '['] + s[i + 2..]
  {
  }

  lemma EscapeIn(s: string, before: string, after: string)
    requires s == before + [ESC, '['] + after
    ensures Stripping.HasAnsiEscapes(s)
  {
    assert s[|before|] == ESC && s[|before| + 1] == '[';
  }

  /** Escapes are translated when the text holds an escape character and a bracket, */
  lemma EscapesTranslated(s: string)
    ensures Stripping.HasAnsiEscapes(s) <==> exists before, after :: s == before + [ESC, '['] + after
  {
    if Stripping.HasAnsiEscapes(s) {
      var i :| 0 <= i < |s| - 1 && s[i] == ESC && s[i + 1] == '[';
      EscapeAt(s, i);
    }
    if before, after :| s == before + [ESC, '['] + after {
      EscapeIn(s, before, after);
    }
  }

  /** and tags are parsed when it holds a name in brackets, known or not. */
  lemma TagsParsed(s: string)
    ensures Stripping.HasLightweightTags(s) <==> exists before, name, after :: Bracketed(s, before, name, after)
  {
    hide Bracketed, NameLen;
    if Stripping.HasLightweightTags(s) {
      var i :| 0 <= i < |s| && Stripping.PlainTagLen(s[i..]) > 0 && s[i + 1] != '/';
      PlainIsBracketed(s, i);
    }
    if before, name, after :| Bracketed(s, before, name, after) {
      BracketedIsPlain(s, before, name, after);
    }
  }

  /** The text holds the name in brackets. */
  predicate Bracketed(s: string, before: string, name: string, after: string) {
    TagName(name) && name != "" && s == before + ("[" + name + "]") + after
  }

  lemma PlainIsBracketed(s: string, i: nat)
    requires i < |s| && Stripping.PlainTagLen(s[i..]) > 0 && s[i + 1] != '/'
    ensures exists before, name, after :: Bracketed(s, before, name, after)
  {
    var rest := s[i..];
    var n := NameLen(rest[1..]);
    assert rest[1] == s[i + 1];
    NameChars(rest[1..]);
    var name := rest[1..][..n];
    assert rest[1 + n] == ']';
    assert s == s[..i] + ("[" + name + "]") + rest[n + 2..];
    assert Bracketed(s, s[..i], name, rest[n + 2..]);
  }

  lemma BracketedIsPlain(s: string, before: string, name: string, after: string)
    requires Bracketed(s, before, name, after)
    ensures Stripping.HasLightweightTags(s)
  {
    var i := |before|;
    var rest := s[i..];
    assert rest == "[" + name + "]" + after;
    assert rest[1..] == name + ("]" + after);
    NameRead(name, "]" + after);
    assert rest[1] == name[0] && rest[1 + |name|] == ']';
    assert Stripping.PlainTagLen(rest) > 0;
    assert s[i + 1] == rest[1];
  }

  /** Names in brackets are stripped before `[/]` is: one that splits it is gone in time. */
  lemma NamesGoFirst(name: string)
    requires TagName(name) && name != ""
    ensures Stripping.StripAnsi("[/" + ("[" + name + "]") + "]") == ""
  {
    var tag, s := "[" + name + "]", "[/" + ("[" + name + "]") + "]";
    forall c | c in s ensures c != ESC { }
    Stripping.NoEscapeIn(s);
    hide Stripping.RemoveAll;
    PlainOfSplit(name);
    LastPass();
  }

  lemma InnerGoes(name: string)
    requires TagName(name) && name != ""
    ensures Stripping.RemoveAll("[" + name + "]" + "]", Stripping.PlainTagLen) == "]"
  {
    var inner := "[" + name + "]" + "]";
    assert inner[1..] == name + ("]" + "]");
    NameRead(name, "]" + "]");
    hide NameLen;
    assert inner[1] == name[0] && inner[1 + |name|] == ']';
    assert Stripping.PlainTagLen(inner) == |name| + 2 && inner[|name| + 2..] == "]";
    Stripping.RemoveStep(inner, Stripping.PlainTagLen);
    assert Stripping.RemoveAll("]", Stripping.PlainTagLen) == "]";
  }

  lemma PlainOfSplit(name: string)
    requires TagName(name) && name != ""
    ensures Stripping.RemoveAll("[/" + ("[" + name + "]") + "]", Stripping.PlainTagLen) == "[/]"
  {
    var s, inner := "[/" + ("[" + name + "]") + "]", "[" + name + "]" + "]";
    InnerGoes(name);
    assert s[1..] == "/" + inner && s[1..][1..] == inner && s[2..] == inner && inner[0] == '[';
    assert Stripping.PlainTagLen(s) == 0 && Stripping.PlainTagLen(s[1..]) == 0;
    hide Stripping.RemoveAll, Stripping.PlainTagLen;
    Stripping.RemoveStep(s, Stripping.PlainTagLen);
    Stripping.RemoveStep(s[1..], Stripping.PlainTagLen);
  }

  lemma LastPass()
    ensures Stripping.RemoveAll("[/]", Stripping.UniversalLen) == ""
  {
  }
}
