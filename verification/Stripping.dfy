/** Stripping the markup of a text, against what the parser shows of it. */
module Stripping {
  import opened Sums
  import opened Ansi

  /** Remove every match of a pattern given by its match lengths. */
  function RemoveAll(s: string, lengthOf: string -> nat): string
    decreases |s|
  {
    if s == "" then ""
    else if 0 < lengthOf(s) <= |s| then RemoveAll(s[lengthOf(s)..], lengthOf)
    else [s[0]] + RemoveAll(s[1..], lengthOf)
  }

  /** Length of an opening or closing tag with a name and nothing else. */
  function PlainTagLen(s: string): nat {
    if s == "" || s[0] != '[' then 0
    else
      var a := if |s| > 1 && s[1] == '/' then 2 else 1;
      var n := NameLen(s[a..]);
      if n > 0 && a + n < |s| && s[a + n] == ']' then a + n + 1 else 0
  }

  function UniversalLen(s: string): nat {
    if |s| >= 3 && s[..3] == "[/]" then 3 else 0
  }

  function StripAnsi(s: string): string {
    RemoveAll(RemoveAll(RemoveAll(s, SgrLen), PlainTagLen), UniversalLen)
  }

  function Text(glyphs: seq<Glyph>): string {
    seq(|glyphs|, i requires 0 <= i < |glyphs| => glyphs[i].c)
  }

  predicate HasAnsiEscapes(s: string) {
    exists i :: 0 <= i < |s| - 1 && s[i] == ESC && s[i + 1] == '['
  }

  predicate HasLightweightTags(s: string) {
    exists i :: 0 <= i < |s| && PlainTagLen(s[i..]) > 0 && s[i + 1] != '/'
  }

  // ---- Text made of characters, SGR sequences and tags ----

  /** The bracket at i belongs to an SGR sequence. */
  predicate InSgr(s: string, i: nat)
    requires i < |s|
  {
    i > 0 && SgrLen(s[i - 1..]) > 0
  }

  /** A character a tag can have between its brackets. */
  predicate IsTagChar(c: char) { IsNameChar(c) || c == '/' }

  function TagRun(s: string): (n: nat)
    ensures n <= |s| && (forall i :: 0 <= i < n ==> IsTagChar(s[i])) && (n < |s| ==> !IsTagChar(s[n]))
  {
    if s == "" || !IsTagChar(s[0]) then 0 else 1 + TagRun(s[1..])
  }

  /** Neither a sequence nor a tag starts here. */
  predicate Plain(s: string) { SgrLen(s) == 0 && TagAt(s).NoTag? }

  /** A bracket that starts no tag, and that no removal can make one of: what follows the characters a
      tag can have stays where it is. */
  predicate Stray(s: string) {
    s != "" && s[0] == '[' && TagAt(s).NoTag? && Plain(s[1 + TagRun(s[1..])..])
  }

  /** Every bracket belongs to an SGR sequence, starts a tag or is a stray one. */
  ghost predicate Markup(s: string) {
    forall i :: 0 <= i < |s| && s[i] == '[' ==> InSgr(s, i) || TagAt(s[i..]).Tag? || Stray(s[i..])
  }

  /** A second slash, after the name. */
  predicate Trailing(t: Tag)
    requires t.Tag?
  {
    t.len == (if t.close then 2 else 1) + |t.name| + 2
  }

  /** The parser shows the tag as text. */
  predicate Kept(t: Tag)
    requires t.Tag?
  {
    EffectOf(t, []).Keep?
  }

  /** Stripping removes the tag. */
  predicate Removed(t: Tag)
    requires t.Tag?
  {
    !Trailing(t) && (t.close || t.name != "")
  }

  /** The text starts with an unknown tag that stripping removes, or with a tag the parser consumes
      although it has a trailing slash. */
  predicate Odd(s: string) {
    var t := TagAt(s);
    t.Tag? && ((Kept(t) && PlainTagLen(s) > 0) || (!Kept(t) && Trailing(t)))
  }

  /** No tag of the text is of either kind. */
  ghost predicate NoneOdd(s: string) {
    forall i :: 0 <= i < |s| && s[i] == '[' ==> InSgr(s, i) || !Odd(s[i..])
  }

  /** Stripping removes none of the tags. */
  ghost predicate NoneRemoved(s: string) {
    forall i :: 0 <= i < |s| && s[i] == '[' ==> InSgr(s, i) || TagAt(s[i..]).NoTag? || !Removed(TagAt(s[i..]))
  }

  /** The length of the sequence, tag, stray bracket with its tag characters, or character the text starts with. */
  function TokenLen(s: string): (n: nat)
    requires s != ""
    ensures 1 <= n <= |s|
  {
    if SgrLen(s) > 0 then SgrLen(s) else if TagAt(s).Tag? then TagAt(s).len else if Stray(s) then 1 + TagRun(s[1..]) else 1
  }

  // ---- Tags ----

  lemma {:induction false} RunChars(s: string)
    ensures forall i :: 0 <= i < RunLen(s) ==> IsNameChar(s[i])
    ensures RunLen(s) < |s| ==> !IsNameChar(s[RunLen(s)])
  {
    if s != "" && IsNameChar(s[0]) {
      RunChars(s[1..]);
      forall i | 0 <= i < RunLen(s) ensures IsNameChar(s[i]) { if i > 0 { assert s[i] == s[1..][i - 1]; } }
    }
  }

  lemma {:induction false} RunPrefix(s: string, m: nat, x: string)
    requires RunLen(s) < m <= |s|
    ensures RunLen(s[..m] + x) == RunLen(s)
  {
    if s != "" && IsNameChar(s[0]) {
      RunPrefix(s[1..], m - 1, x);
      assert (s[..m] + x)[1..] == s[1..][..m - 1] + x;
    }
  }

  /** The parts of a tag. */
  lemma TagParts(s: string)
    requires TagAt(s).Tag?
    ensures var t := TagAt(s); var a := if t.close then 2 else 1;
            && t.len == a + |t.name| + (if Trailing(t) then 2 else 1) && s[t.len - 1] == ']' && (Trailing(t) ==> s[t.len - 2] == '/')
            && (t.close <==> |s| > 1 && s[1] == '/') && |t.name| == NameLen(s[a..]) && t.name == s[a..a + |t.name|]
            && (!Trailing(t) ==> s[a + |t.name|] == ']')
  {
  }

  /** Inside a tag there is neither a bracket nor an escape. */
  lemma TagInside(s: string)
    requires TagAt(s).Tag?
    ensures forall i :: 1 <= i < TagAt(s).len ==> s[i] != '[' && s[i] != ESC
  {
    TagParts(s);
    var t := TagAt(s);
    var a := if t.close then 2 else 1;
    RunChars(s[a..]);
    hide TagAt, RunLen;
    forall i | 1 <= i < t.len ensures s[i] != '[' && s[i] != ESC {
      if a <= i < a + |t.name| { assert IsNameChar(s[a..][i - a]); }
    }
  }

  lemma PrefixOf(s: string, m: nat, x: string, i: nat, j: nat)
    requires i <= j <= m <= |s|
    ensures (s[..m] + x)[i..j] == s[i..j] && (s[..m] + x)[i..] == s[i..][..m - i] + x
    ensures forall k :: 0 <= k < m ==> (s[..m] + x)[k] == s[k]
    ensures (s[..m] + x)[..m] == s[..m] && (s[..m] + x)[m..] == x
  {
  }

  lemma NamePrefix(s: string, m: nat, x: string)
    requires NameLen(s) < m <= |s|
    ensures NameLen(s[..m] + x) == NameLen(s)
  {
    assert (s[..m] + x)[0] == s[0];
    if NameLen(s) > 0 { RunPrefix(s, m, x); } else { assert s != "" && IsLower(s[0]) ==> RunLen(s) > 0; }
  }

  lemma TagOf(s: string, close: bool, slash: bool, k: nat)
    requires var a := if close then 2 else 1; a + k + (if slash then 1 else 0) < |s| && s[0] == '[' && (close <==> s[1] == '/') && NameLen(s[a..]) == k
    requires var b := (if close then 2 else 1) + k; if slash then s[b] == '/' && s[b + 1] == ']' else s[b] == ']'
    ensures var a := if close then 2 else 1; TagAt(s) == Tag(close, s[a..a + k], a + k + if slash then 2 else 1)
  {
    hide NameLen;
  }

  /** A tag is a tag whatever follows it. */
  lemma TagPrefix(s: string, x: string)
    requires TagAt(s).Tag?
    ensures var t := TagAt(s); TagAt(s[..t.len] + x) == t && (s[..t.len] + x)[..t.len] == s[..t.len] && (s[..t.len] + x)[t.len..] == x
  {
    TagParts(s);
    hide TagAt, NameLen;
    var t := TagAt(s);
    var a, k := if t.close then 2 else 1, |t.name|;
    PrefixOf(s, t.len, x, a, a + k);
    NamePrefix(s[a..], t.len - a, x);
    TagOf(s[..t.len] + x, t.close, Trailing(t), k);
  }

  /** Which tags the two patterns of the stripping match, and that they match all of them. */
  lemma RemovedExact(s: string)
    requires TagAt(s).Tag?
    ensures var t := TagAt(s);
            && (PlainTagLen(s) > 0 <==> !Trailing(t) && t.name != "") && (PlainTagLen(s) > 0 ==> PlainTagLen(s) == t.len)
            && (UniversalLen(s) > 0 <==> !Trailing(t) && t.name == "" && t.close) && (UniversalLen(s) > 0 ==> UniversalLen(s) == t.len)
  {
    TagParts(s);
    var t := TagAt(s);
    var a := if t.close then 2 else 1;
    RunChars(s[a..]);
    hide TagAt, RunLen;
    if t.close && t.name == "" && !Trailing(t) { assert s[..3] == "[/]"; }
    if UniversalLen(s) > 0 { assert s[..3][0] == '[' && s[..3][1] == '/' && s[..3][2] == ']' && s[2..][0] == ']'; }
  }

  lemma OddExact(s: string)
    requires TagAt(s).Tag?
    ensures var t := TagAt(s); Odd(s) <==> (Kept(t) <==> Removed(t))
  {
    RemovedExact(s);
    hide TagAt, PlainTagLen, ValidTag;
  }

  // ---- Stray brackets ----

  /** The characters after a stray bracket. */
  lemma StrayInside(s: string)
    requires Stray(s)
    ensures var n := 1 + TagRun(s[1..]); n <= |s| && forall i :: 1 <= i < n ==> IsTagChar(s[i]) && s[i] != '[' && s[i] != ESC && s[i] != ']'
    ensures SgrLen(s) == 0 && TokenLen(s) == 1 + TagRun(s[1..])
    ensures var n := 1 + TagRun(s[1..]); n < |s| ==> !IsTagChar(s[n])
  {
    hide TagAt, SgrLen;
    assert s[0] != ESC;
    SgrStart(s);
    forall i | 1 <= i < 1 + TagRun(s[1..]) ensures IsTagChar(s[i]) { assert s[1..][i - 1] == s[i]; }
  }

  lemma SgrStart(s: string)
    ensures s == "" || s[0] != ESC ==> SgrLen(s) == 0
  {
  }

  /** What may stand after a stray bracket and its characters in place of what does. */
  predicate Follows(s: string, n: nat, x: string) {
    x == "" || (if n < |s| then x[0] == s[n] else x[0] == '[')
  }

  /** A tag has tag characters only, up to its second bracket. */
  lemma TagEnds(u: string, n: nat)
    requires TagAt(u).Tag? && 1 <= n <= |u| && (forall i :: 1 <= i < n ==> IsTagChar(u[i])) && (n < |u| ==> !IsTagChar(u[n]))
    ensures n < |u| && u[n] == ']' && TagAt(u).len == n + 1
  {
    TagParts(u);
    TagChars(u);
    hide TagAt;
  }

  lemma TagChars(u: string)
    requires TagAt(u).Tag?
    ensures forall i :: 1 <= i < TagAt(u).len - 1 ==> IsTagChar(u[i])
  {
    TagParts(u);
    var t := TagAt(u);
    var a := if t.close then 2 else 1;
    RunChars(u[a..]);
    hide TagAt, RunLen;
    forall i | 1 <= i < t.len - 1 ensures IsTagChar(u[i]) {
      if a <= i < a + |t.name| { assert IsNameChar(u[a..][i - a]); }
    }
  }

  /** The stripping removes tags only. */
  lemma OnlyTags(u: string)
    ensures TagAt(u).NoTag? ==> PlainTagLen(u) == 0 && UniversalLen(u) == 0
  {
    if UniversalLen(u) > 0 { assert u[..3][0] == '[' && u[..3][1] == '/' && u[..3][2] == ']' && NameLen(u[2..]) == 0; }
  }

  /** A stray bracket is no part of a tag, whatever becomes of the text behind it. */
  lemma StrayPrefix(s: string, x: string)
    requires Stray(s) && Follows(s, TokenLen(s), x)
    ensures var u := s[..TokenLen(s)] + x; TagAt(u).NoTag? && PlainTagLen(u) == 0 && UniversalLen(u) == 0 && SgrLen(u) == 0
  {
    StrayInside(s);
    var n := TokenLen(s);
    var u := s[..n] + x;
    assert forall i :: 0 <= i < n ==> u[i] == s[i];
    assert x != "" ==> u[n] == x[0];
    SgrStart(u);
    OnlyTags(u);
    hide TagAt, SgrLen, TokenLen, PlainTagLen, UniversalLen, TagRun;
    if TagAt(u).Tag? {
      TagEnds(u, n);
      TagGoesOn(u, s, n + 1);
    }
  }

  lemma TagGoesOn(u: string, s: string, n: nat)
    requires TagAt(u).Tag? && TagAt(u).len == n <= |s| && u[..n] == s[..n]
    ensures TagAt(s).Tag?
  {
    TagPrefix(u, s[n..]);
    hide TagAt;
    assert u[..n] + s[n..] == s;
  }

  lemma CharPrefix(c: char, x: string)
    requires c != '['
    ensures TagAt([c] + x).NoTag? && PlainTagLen([c] + x) == 0 && UniversalLen([c] + x) == 0 && ([c] + x)[1..] == x
  {
  }

  /** A character, or a stray bracket with its tag characters. */
  predicate PlainStart(s: string) {
    s != "" && Plain(s) && (s[0] != '[' || Stray(s))
  }

  /** Whatever may follow it, no pattern matches in it. */
  lemma PlainUntouched(s: string, x: string)
    requires PlainStart(s) && (Stray(s) ==> Follows(s, TokenLen(s), x))
    ensures forall i :: 0 <= i < TokenLen(s) ==>
      var u := (s[..TokenLen(s)] + x)[i..]; TagAt(u).NoTag? && PlainTagLen(u) == 0 && UniversalLen(u) == 0
  {
    var n := TokenLen(s);
    if Stray(s) {
      StrayInside(s);
      StrayPrefix(s, x);
    } else {
      CharPrefix(s[0], x);
    }
    forall i | 0 <= i < n ensures var u := (s[..n] + x)[i..]; TagAt(u).NoTag? && PlainTagLen(u) == 0 && UniversalLen(u) == 0 {
      var u := (s[..n] + x)[i..];
      assert u[0] == s[i];
      if i == 0 { assert u == s[..n] + x && (n == 1 ==> s[..n] == [s[0]]); } else { OnlyTags(u); }
      hide SgrLen, TokenLen, PlainTagLen, UniversalLen, TagRun, Stray;
    }
  }

  /** No sequence starts in it. */
  lemma NoSequence(s: string)
    requires PlainStart(s)
    ensures forall i :: 0 <= i < TokenLen(s) ==> SgrLen(s[i..]) == 0
  {
    if Stray(s) { StrayInside(s); }
    forall i | 0 <= i < TokenLen(s) ensures SgrLen(s[i..]) == 0 {
      if i == 0 { assert s[0..] == s; } else { assert s[i..][0] == s[i]; SgrStart(s[i..]); }
      hide SgrLen, TokenLen, TagRun, Stray;
    }
  }

  // ---- From one token to the rest ----

  /** Brackets after the first token are in the same position in the rest. */
  lemma RestBracket(s: string, i: nat)
    requires s != "" && i < |s| - TokenLen(s) && s[TokenLen(s) + i] == '['
    ensures var n := TokenLen(s); s[n..][i] == '[' && s[n..][i..] == s[n + i..] && (InSgr(s[n..], i) <==> InSgr(s, n + i))
  {
    var n := TokenLen(s);
    DropDrop(s, n, i);
    if TagAt(s).Tag? { TagParts(s); }
    if SgrLen(s) == 0 && Stray(s) { StrayInside(s); }
    hide SgrLen, TagAt, Stray;
    if i > 0 {
      DropDrop(s, n, i - 1);
    } else {
      assert s[n - 1..][0] == s[n - 1];
      assert n == 1 ==> s[0..] == s;
      assert !InSgr(s, n);
    }
  }

  /** A bracket of the first token is the first character or belongs to an SGR sequence. */
  lemma FirstBracket(s: string, i: nat)
    requires s != "" && i < TokenLen(s) && s[i] == '['
    ensures if SgrLen(s) > 0 then InSgr(s, i) else i == 0 && !InSgr(s, 0) && s[0..] == s
  {
    if SgrLen(s) == 0 && TagAt(s).Tag? { TagInside(s); }
    if SgrLen(s) == 0 && Stray(s) { StrayInside(s); }
    hide TagAt, Stray;
    if SgrLen(s) > 0 { assert s[0..] == s; }
  }

  lemma MarkupRest(s: string)
    requires s != "" && Markup(s)
    ensures Markup(s[TokenLen(s)..])
    ensures Plain(s) && !Stray(s) ==> s[0] != '['
    ensures Plain(s) && Stray(s) ==> Plain(s[TokenLen(s)..])
  {
    hide SgrLen, TagAt, TagRun;
    var n := TokenLen(s);
    forall i | 0 <= i < |s[n..]| && s[n..][i] == '[' ensures InSgr(s[n..], i) || TagAt(s[n..][i..]).Tag? || Stray(s[n..][i..]) { RestBracket(s, i); }
    if SgrLen(s) == 0 && s[0] == '[' { FirstBracket(s, 0); }
  }

  lemma NoneOddRest(s: string)
    requires s != ""
    ensures NoneOdd(s) <==> NoneOdd(s[TokenLen(s)..]) && (SgrLen(s) == 0 ==> !Odd(s))
  {
    hide SgrLen, TagAt, Odd, InSgr;
    var n := TokenLen(s);
    if NoneOdd(s) {
      forall i | 0 <= i < |s[n..]| && s[n..][i] == '[' ensures InSgr(s[n..], i) || !Odd(s[n..][i..]) { RestBracket(s, i); }
      if SgrLen(s) == 0 && s[0] == '[' { FirstBracket(s, 0); }
      NotOdd(s);
    }
    if NoneOdd(s[n..]) && (SgrLen(s) == 0 ==> !Odd(s)) {
      forall i | 0 <= i < |s| && s[i] == '[' ensures InSgr(s, i) || !Odd(s[i..]) {
        if i < n { FirstBracket(s, i); } else { RestBracket(s, i - n); }
      }
    }
  }

  lemma NotOdd(s: string)
    ensures s == "" || s[0] != '[' ==> !Odd(s)
  {
  }

  lemma NoneRemovedRest(s: string)
    requires s != ""
    ensures NoneRemoved(s) <==> NoneRemoved(s[TokenLen(s)..]) && (SgrLen(s) == 0 && TagAt(s).Tag? ==> !Removed(TagAt(s)))
  {
    hide SgrLen, TagAt, Removed, InSgr;
    var n := TokenLen(s);
    if NoneRemoved(s) {
      forall i | 0 <= i < |s[n..]| && s[n..][i] == '[' ensures InSgr(s[n..], i) || TagAt(s[n..][i..]).NoTag? || !Removed(TagAt(s[n..][i..])) {
        RestBracket(s, i);
      }
      if SgrLen(s) == 0 && TagAt(s).Tag? { FirstBracket(s, 0); }
    }
    if NoneRemoved(s[n..]) && (SgrLen(s) == 0 && TagAt(s).Tag? ==> !Removed(TagAt(s))) {
      forall i | 0 <= i < |s| && s[i] == '[' ensures InSgr(s, i) || TagAt(s[i..]).NoTag? || !Removed(TagAt(s[i..])) {
        if i < n { FirstBracket(s, i); } else { RestBracket(s, i - n); }
      }
    }
  }

  // ---- What is shown ----

  /** The text of the glyphs, whatever the style. */
  function Visible(s: string): string
    decreases |s|
  {
    if s == "" then ""
    else
      var t := TagAt(s);
      if t.NoTag? then [s[0]] + Visible(s[1..])
      else (if Kept(t) then s[..t.len] else "") + Visible(s[t.len..])
  }

  lemma VisibleStep(s: string)
    requires s != ""
    ensures var t := TagAt(s);
            Visible(s) == if t.NoTag? then [s[0]] + Visible(s[1..]) else (if Kept(t) then s[..t.len] else "") + Visible(s[t.len..])
  {
  }

  lemma TextParts(a: seq<Glyph>, b: seq<Glyph>, s: string, style: Style)
    ensures Text(a + b) == Text(a) + Text(b) && Text(Glyphs(s, style)) == s
  {
  }

  lemma {:induction false} VisibleIsText(s: string, style: Style)
    ensures Text(Styled(s, style)) == Visible(s)
    decreases |s|
  {
    hide TagAt, Text, Glyphs, ValidTag, Visible;
    if s == "" {
      TextParts([], [], "", style);
      EmptyText();
    } else {
      VisibleStep(s);
      var t := TagAt(s);
      if t.NoTag? {
        VisibleIsText(s[1..], style);
        StyledChar(s, style);
        OneText(s[0], style);
        TextParts([Glyph(s[0], style)], Styled(s[1..], style), "", style);
      } else {
        StyledStart(s, style);
        match EffectOf(t, style)
        case Keep =>
          VisibleIsText(s[t.len..], style);
          TextParts(Glyphs(s[..t.len], style), Styled(s[t.len..], style), s[..t.len], style);
        case Become(style') =>
          VisibleIsText(s[t.len..], style');
          assert "" + Visible(s[t.len..]) == Visible(s[t.len..]);
      }
    }
  }

  lemma EmptyText()
    ensures Text([]) == "" && Visible("") == ""
  {
  }

  lemma OneText(c: char, style: Style)
    ensures Text([Glyph(c, style)]) == [c]
  {
  }

  /** A tag made by the translation is not shown. */
  lemma NamedTag(piece: string, name: string, rest: string)
    requires IsName(name) && ValidTag(name) && name != "reset" && (piece == Open(name) || piece == Shut(name))
    ensures Visible(piece + rest) == Visible(rest)
  {
    if piece == Open(name) { OpenTag(name, rest); } else { ShutTag(name, rest); }
    hide TagAt, IsName, ValidTag;
    VisibleStep(piece + rest);
    assert "" + Visible(rest) == Visible(rest);
  }

  lemma {:induction false} ShutAllUnseen(style: Style, rest: string)
    requires Known(style)
    ensures Visible(ShutAll(style) + rest) == Visible(rest)
  {
    hide TagAt, IsName, ValidTag, Visible, Shut;
    if style == [] {
      assert ShutAll(style) + rest == rest;
    } else {
      var front, name := style[..|style| - 1], style[|style| - 1];
      assert ShutAll(style) + rest == Shut(name) + (ShutAll(front) + rest);
      NamedTag(Shut(name), name, ShutAll(front) + rest);
      ShutAllUnseen(front, rest);
    }
  }

  lemma {:induction false} EmitAllUnseen(codes: seq<nat>, style: Style, rest: string)
    requires Known(style)
    ensures Known(ApplyCodes(codes, style)) && Visible(EmitAll(codes, style) + rest) == Visible(rest)
  {
    if codes == [] {
      assert EmitAll(codes, style) + rest == rest;
    } else {
      var style' := ApplyCode(codes[0], style);
      var more := EmitAll(codes[1..], style') + rest;
      EmitUnseen(codes[0], style, more);
      EmitAllUnseen(codes[1..], style', rest);
      assert EmitAll(codes, style) + rest == Emit(codes[0], style) + more;
    }
  }

  lemma EmitUnseen(code: nat, style: Style, rest: string)
    requires Known(style)
    ensures Known(ApplyCode(code, style)) && Visible(Emit(code, style) + rest) == Visible(rest)
  {
    CodeNames(code);
    hide TagAt, IsName, ValidTag, Visible, Open;
    match SgrOf(code)
    case Reset => ShutAllUnseen(style, rest);
    case Push(name) => NamedTag(Open(name), name, rest);
    case Unknown => assert Emit(code, style) + rest == rest;
  }

  /** Token by token: what the parser shows, and what stripping leaves. */
  function Shown(s: string): string
    decreases |s|
  {
    if s == "" then ""
    else
      var rest := Shown(s[TokenLen(s)..]);
      if SgrLen(s) > 0 then rest
      else if TagAt(s).Tag? then (if Kept(TagAt(s)) then s[..TokenLen(s)] else "") + rest
      else s[..TokenLen(s)] + rest
  }

  function Stripped(s: string): string
    decreases |s|
  {
    if s == "" then ""
    else
      var rest := Stripped(s[TokenLen(s)..]);
      if SgrLen(s) > 0 then rest
      else if TagAt(s).Tag? then (if Removed(TagAt(s)) then "" else s[..TokenLen(s)]) + rest
      else s[..TokenLen(s)] + rest
  }

  /** The translation keeps tags as they are. */
  lemma TaggedTag(s: string, active: Style)
    requires TagAt(s).Tag?
    ensures var n := TagAt(s).len; Tagged(s, active) == s[..n] + Tagged(s[n..], active) && SgrLen(s) == 0
  {
    TagInside(s);
    var n := TagAt(s).len;
    forall k | 0 <= k < n ensures SgrLen(s[k..]) == 0 { assert s[k..][0] == s[k]; }
    hide TagAt, SgrLen;
    assert s[0..] == s && s[0..n] == s[..n];
    TaggedText(s, 0, n, active);
  }

  /** ... and characters and stray brackets. */
  lemma TaggedPlain(s: string, active: Style)
    requires PlainStart(s)
    ensures var n := TokenLen(s); Tagged(s, active) == s[..n] + Tagged(s[n..], active)
    ensures var n := TokenLen(s); Plain(s[n..]) ==> Follows(s, n, Tagged(s[n..], active))
  {
    NoSequence(s);
    var n := TokenLen(s);
    hide TagAt, SgrLen, TokenLen, Stray;
    assert s[0..] == s && s[0..n] == s[..n];
    TaggedText(s, 0, n, active);
    if n == |s| { assert s[n..] == ""; } else if Plain(s[n..]) { TaggedChar(s[n..], active); }
  }

  lemma TaggedSequence(s: string, active: Style)
    requires SgrLen(s) > 0
    ensures Tagged(s, active) == EmitAll(Codes(s), active) + Tagged(s[SgrLen(s)..], ApplyCodes(Codes(s), active))
  {
  }

  lemma {:induction false} KeepVisible(t: string, x: string)
    requires forall i :: 0 <= i < |t| ==> TagAt((t + x)[i..]).NoTag?
    ensures Visible(t + x) == t + Visible(x) && Slashed(t + x) == Slashed(x)
  {
    hide TagAt, Visible, Slashed;
    if t == "" {
      assert t + x == x;
    } else {
      assert (t + x)[0..] == t + x && (t + x)[1..] == t[1..] + x;
      forall i | 0 <= i < |t[1..]| ensures TagAt((t[1..] + x)[i..]).NoTag? { DropDrop(t + x, 1, i); }
      KeepVisible(t[1..], x);
      VisibleStep(t + x);
      SlashedStep(t + x);
      assert [t[0]] + (t[1..] + Visible(x)) == t + Visible(x);
    }
  }

  lemma {:induction false} TranslationShows(s: string, active: Style)
    requires Markup(s) && Known(active)
    ensures Visible(Tagged(s, active)) == Shown(s)
    decreases |s|
  {
    hide SgrLen, TagAt, Markup, Known, Visible, Codes, Kept, Stray, TagRun, Tagged;
    TaggedEnd(active);
    if s == "" {
      ShutAllUnseen(active, "");
      assert ShutAll(active) + "" == ShutAll(active);
      EmptyText();
    } else {
      MarkupRest(s);
      var n := TokenLen(s);
      if SgrLen(s) > 0 {
        var active' := ApplyCodes(Codes(s), active);
        TaggedSequence(s, active);
        EmitAllUnseen(Codes(s), active, Tagged(s[n..], active'));
        TranslationShows(s[n..], active');
      } else if TagAt(s).Tag? {
        TaggedTag(s, active);
        TranslationShows(s[n..], active);
        TagPrefix(s, Tagged(s[n..], active));
        VisibleStep(s[..n] + Tagged(s[n..], active));
      } else {
        TaggedPlain(s, active);
        TranslationShows(s[n..], active);
        PlainUntouched(s, Tagged(s[n..], active));
        KeepVisible(s[..n], Tagged(s[n..], active));
      }
    }
  }

  // ---- What stripping leaves ----

  lemma {:induction false} KeepPiece(t: string, x: string, lengthOf: string -> nat)
    requires forall i :: 0 <= i < |t| ==> lengthOf((t + x)[i..]) == 0
    ensures RemoveAll(t + x, lengthOf) == t + RemoveAll(x, lengthOf)
  {
    if t == "" {
      assert t + x == x;
    } else {
      assert (t + x)[0..] == t + x && (t + x)[1..] == t[1..] + x;
      forall i | 0 <= i < |t[1..]| ensures lengthOf((t[1..] + x)[i..]) == 0 {
        DropDrop(t + x, 1, i);
      }
      KeepPiece(t[1..], x, lengthOf);
      assert [t[0]] + (t[1..] + RemoveAll(x, lengthOf)) == t + RemoveAll(x, lengthOf);
    }
  }

  /** None of the patterns matches inside a tag, and the first of them not at its start either. */
  lemma InsideUnmatched(s: string, x: string)
    requires TagAt(s).Tag?
    ensures var n := TagAt(s).len;
            && (forall i :: 0 <= i < n ==> SgrLen((s[..n] + x)[i..]) == 0)
            && forall i :: 1 <= i < n ==> PlainTagLen((s[..n] + x)[i..]) == 0 && UniversalLen((s[..n] + x)[i..]) == 0
  {
    TagInside(s);
    hide TagAt;
    var u, n := s[..TagAt(s).len] + x, TagAt(s).len;
    forall i | 0 <= i < n ensures u[i..][0] == s[i] { }
    forall i | 1 <= i < n ensures PlainTagLen(u[i..]) == 0 && UniversalLen(u[i..]) == 0 {
      assert u[i..][0] != '[';
      assert |u[i..]| >= 3 ==> u[i..][..3][0] == u[i..][0];
    }
  }

  /** One pass over a tag: it goes as a whole or stays as a whole. */
  lemma PassTag(s: string, x: string)
    requires TagAt(s).Tag?
    ensures var piece, t := s[..TagAt(s).len], TagAt(s);
            && RemoveAll(piece + x, SgrLen) == piece + RemoveAll(x, SgrLen)
            && RemoveAll(piece + x, PlainTagLen) == (if !Trailing(t) && t.name != "" then "" else piece) + RemoveAll(x, PlainTagLen)
            && RemoveAll(piece + x, UniversalLen) == (if !Trailing(t) && t.name == "" && t.close then "" else piece) + RemoveAll(x, UniversalLen)
  {
    TagPrefix(s, x);
    InsideUnmatched(s, x);
    var piece, t := s[..TagAt(s).len], TagAt(s);
    RemovedExact(piece + x);
    hide TagAt, SgrLen, PlainTagLen, UniversalLen, Trailing;
    assert (piece + x)[0..] == piece + x;
    KeepPiece(piece, x, SgrLen);
    if PlainTagLen(piece + x) == 0 {
      KeepPiece(piece, x, PlainTagLen);
    } else {
      assert RemoveAll(piece + x, PlainTagLen) == "" + RemoveAll(x, PlainTagLen);
    }
    if UniversalLen(piece + x) == 0 {
      KeepPiece(piece, x, UniversalLen);
    } else {
      assert RemoveAll(piece + x, UniversalLen) == "" + RemoveAll(x, UniversalLen);
    }
  }

  lemma RemoveStep(s: string, lengthOf: string -> nat)
    requires s != "" && lengthOf(s) <= |s|
    ensures RemoveAll(s, lengthOf) == if lengthOf(s) > 0 then RemoveAll(s[lengthOf(s)..], lengthOf) else [s[0]] + RemoveAll(s[1..], lengthOf)
  {
  }

  lemma StripTag(s: string, rest: string)
    requires TagAt(s).Tag?
    ensures var piece, t := s[..TagAt(s).len], TagAt(s);
            StripAnsi(piece + rest) == (if Removed(t) then "" else piece) + StripAnsi(rest)
  {
    var piece, t := s[..TagAt(s).len], TagAt(s);
    var one := RemoveAll(rest, SgrLen);
    var two := RemoveAll(one, PlainTagLen);
    PassTag(s, rest);
    PassTag(s, one);
    PassTag(s, two);
    hide TagAt, SgrLen, PlainTagLen, UniversalLen, Trailing, RemoveAll;
    assert "" + two == two;
  }

  /** The text after the first pass, and after the second. */
  function PassOne(s: string): string { RemoveAll(s, SgrLen) }
  function PassTwo(s: string): string { RemoveAll(PassOne(s), PlainTagLen) }

  lemma StripPlain(s: string)
    requires PlainStart(s) && (Stray(s) ==> var n := TokenLen(s); Follows(s, n, PassOne(s[n..])) && Follows(s, n, PassTwo(s[n..])))
    ensures var n := TokenLen(s); StripAnsi(s) == s[..n] + StripAnsi(s[n..])
    ensures PassOne(s) != "" && PassOne(s)[0] == s[0] && PassTwo(s) != "" && PassTwo(s)[0] == s[0]
  {
    var n := TokenLen(s);
    var piece, one, two := s[..n], PassOne(s[n..]), PassTwo(s[n..]);
    NoSequence(s);
    PlainUntouched(s, one);
    PlainUntouched(s, two);
    hide SgrLen, TagAt, PlainTagLen, UniversalLen, RemoveAll, TokenLen, Stray, Follows;
    assert piece + s[n..] == s;
    KeepPiece(piece, s[n..], SgrLen);
    KeepPiece(piece, one, PlainTagLen);
    KeepPiece(piece, two, UniversalLen);
  }

  /** Stripping, token by token; text that starts with neither a sequence nor a tag starts the same
      after each pass. */
  lemma {:induction false} StripIsStripped(s: string)
    requires Markup(s)
    ensures StripAnsi(s) == Stripped(s)
    ensures s == "" ==> PassOne(s) == "" && PassTwo(s) == ""
    ensures s != "" && Plain(s) ==> PassOne(s) != "" && PassOne(s)[0] == s[0] && PassTwo(s) != "" && PassTwo(s)[0] == s[0]
    decreases |s|
  {
    hide SgrLen, TagAt, Markup, Removed, StripAnsi, Stray, TagRun, PassOne, PassTwo;
    if s == "" {
      NothingStripped();
    } else {
      MarkupRest(s);
      var n := TokenLen(s);
      StripIsStripped(s[n..]);
      if SgrLen(s) > 0 {
        StripSgr(s);
      } else if TagAt(s).Tag? {
        assert s[..n] + s[n..] == s;
        StripTag(s, s[n..]);
      } else {
        StripPlain(s);
      }
    }
  }

  lemma NothingStripped()
    ensures StripAnsi("") == "" && PassOne("") == "" && PassTwo("") == ""
  {
  }

  lemma StripSgr(s: string)
    requires SgrLen(s) > 0
    ensures StripAnsi(s) == StripAnsi(s[SgrLen(s)..])
  {
    hide SgrLen, PlainTagLen, UniversalLen;
    RemoveStep(s, SgrLen);
  }

  // ---- When the two are the same ----

  /** The tags of a text that the parser consumes although they have a trailing slash. */
  function Slashed(s: string): nat
    decreases |s|
  {
    if s == "" then 0
    else if TagAt(s).Tag? then (if !Kept(TagAt(s)) && Trailing(TagAt(s)) then 1 else 0) + Slashed(s[TagAt(s).len..])
    else Slashed(s[1..])
  }

  lemma SlashedStep(s: string)
    requires s != ""
    ensures Slashed(s) == if TagAt(s).Tag? then (if !Kept(TagAt(s)) && Trailing(TagAt(s)) then 1 else 0) + Slashed(s[TagAt(s).len..]) else Slashed(s[1..])
    ensures Slashed("") == 0
  {
  }

  /** The length the first token loses by stripping but not by being shown, and the other way round. */
  function Leak(s: string): nat
    decreases |s|
  {
    if s == "" then 0
    else (if SgrLen(s) == 0 && TagAt(s).Tag? && Kept(TagAt(s)) && Removed(TagAt(s)) then TokenLen(s) else 0) + Leak(s[TokenLen(s)..])
  }

  function Slip(s: string): nat
    decreases |s|
  {
    if s == "" then 0
    else (if SgrLen(s) == 0 && TagAt(s).Tag? && !Kept(TagAt(s)) && !Removed(TagAt(s)) then TokenLen(s) else 0) + Slip(s[TokenLen(s)..])
  }

  /** The lengths differ by what leaks and slips. */
  lemma {:induction false} LengthBalance(s: string)
    ensures |Shown(s)| + Slip(s) == |Stripped(s)| + Leak(s)
    decreases |s|
  {
    hide SgrLen, TagAt, Kept, Removed;
    if s != "" { LengthBalance(s[TokenLen(s)..]); }
  }

  /** No tag with a trailing slash that the parser consumes is shown, and all of them outlast stripping. */
  lemma {:induction false} SlashedLeft(s: string)
    requires Markup(s)
    ensures Slashed(Shown(s)) == 0
    ensures Slashed(Stripped(s)) == 0 ==> Slip(s) == 0
    decreases |s|
  {
    hide SgrLen, TagAt, Markup, Kept, Removed, Slashed, Stray, TagRun;
    SlashedStep(['x']);
    if s != "" {
      MarkupRest(s);
      var n := TokenLen(s);
      SlashedLeft(s[n..]);
      if SgrLen(s) == 0 {
        if TagAt(s).Tag? {
          SlashedPiece(s, Shown(s[n..]));
          SlashedPiece(s, Stripped(s[n..]));
          assert "" + Shown(s[n..]) == Shown(s[n..]) && "" + Stripped(s[n..]) == Stripped(s[n..]);
        } else {
          SlashedPlain(s, Shown(s[n..]));
          SlashedPlain(s, Stripped(s[n..]));
        }
      }
    }
  }

  lemma SlashedPlain(s: string, x: string)
    requires PlainStart(s) && (Stray(s) ==> Follows(s, TokenLen(s), x))
    ensures Slashed(s[..TokenLen(s)] + x) == Slashed(x)
  {
    PlainUntouched(s, x);
    hide TagAt, Stray, TokenLen;
    KeepVisible(s[..TokenLen(s)], x);
  }

  lemma SlashedPiece(s: string, x: string)
    requires TagAt(s).Tag?
    ensures var t := TagAt(s);
            && Slashed(s[..t.len] + x) == (if !Kept(t) && Trailing(t) then 1 else 0) + Slashed(x)
            && (!Kept(t) && !Removed(t) ==> Trailing(t))
  {
    TagPrefix(s, x);
    hide TagAt, ValidTag;
    SlashedStep(s[..TagAt(s).len] + x);
  }

  lemma {:induction false} OddOnes(s: string)
    requires Markup(s)
    ensures NoneOdd(s) <==> Leak(s) == 0 && Slip(s) == 0
    ensures NoneOdd(s) ==> Shown(s) == Stripped(s)
    decreases |s|
  {
    hide SgrLen, TagAt, Markup, Kept, Removed, NoneOdd, Odd;
    if s == "" {
      NoneIn();
    } else {
      MarkupRest(s);
      NoneOddRest(s);
      OddOnes(s[TokenLen(s)..]);
      if TagAt(s).Tag? { OddExact(s); } else { NoTagNotOdd(s); }
    }
  }

  lemma NoneIn()
    ensures NoneOdd("") && NoneRemoved("")
  {
  }

  lemma NoTagNotOdd(s: string)
    requires TagAt(s).NoTag?
    ensures !Odd(s)
  {
  }

  lemma ShownIffNoneOdd(s: string)
    requires Markup(s)
    ensures Shown(s) == Stripped(s) <==> NoneOdd(s)
  {
    OddOnes(s);
    SlashedLeft(s);
    LengthBalance(s);
  }

  /** In a text of characters, SGR sequences and tags, the parser shows what stripping leaves if and
      only if no tag is an unknown one that stripping removes, or one with a trailing slash that the
      parser consumes. */
  lemma ShownIsStripped(s: string)
    requires Markup(s)
    ensures Text(Styled(Tagged(s, []), [])) == StripAnsi(s) <==> NoneOdd(s)
  {
    VisibleIsText(Tagged(s, []), []);
    TranslationShows(s, []);
    StripIsStripped(s);
    ShownIffNoneOdd(s);
  }

  /** Shown as it is, such a text equals its stripped form if and only if stripping removes none of its tags. */
  lemma {:induction false} RawIsStripped(s: string)
    requires Markup(s) && !HasAnsiEscapes(s)
    ensures StripAnsi(s) == s <==> NoneRemoved(s)
  {
    StripIsStripped(s);
    RawStripped(s);
  }

  lemma {:induction false} RawStripped(s: string)
    requires Markup(s) && !HasAnsiEscapes(s)
    ensures (Stripped(s) == s <==> NoneRemoved(s)) && |Stripped(s)| <= |s|
    decreases |s|
  {
    hide SgrLen, TagAt, Markup, Removed, NoneRemoved, HasAnsiEscapes, Stray, TagRun;
    if s == "" {
      NoneIn();
    } else {
      var n := TokenLen(s);
      MarkupRest(s);
      NoneRemovedRest(s);
      NoEscapesRest(s);
      RawStripped(s[n..]);
      assert s == s[..n] + s[n..];
      if Stripped(s) == s && !(TagAt(s).Tag? && Removed(TagAt(s))) {
        assert Stripped(s)[n..] == Stripped(s[n..]) && s[n..] == Stripped(s)[n..];
      }
    }
  }

  lemma NoEscapesRest(s: string)
    requires s != "" && !HasAnsiEscapes(s)
    ensures SgrLen(s) == 0 && !HasAnsiEscapes(s[TokenLen(s)..])
  {
    hide TagAt;
    var n := TokenLen(s);
    forall i | 0 <= i < |s[n..]| - 1 ensures s[n..][i] != ESC || s[n..][i + 1] != '[' { assert s[n..][i] == s[n + i] && s[n..][i + 1] == s[n + i + 1]; }
  }


  // ---- A tag of either kind ----

  lemma OneTagMarkup(s: string)
    requires TagAt(s).Tag? && TagAt(s).len == |s|
    ensures Markup(s)
  {
    TagInside(s);
    hide TagAt;
    assert s[0..] == s;
  }

  /** A text that is one tag. */
  lemma OneTag(s: string)
    requires TagAt(s).Tag? && TagAt(s).len == |s|
    ensures Markup(s) && Text(Styled(s, [])) == (if Kept(TagAt(s)) then s else "") && StripAnsi(s) == if Removed(TagAt(s)) then "" else s
  {
    hide TagAt, Kept, Removed, Markup, StripAnsi, Text, Styled, Visible;
    OneTagMarkup(s);
    assert s[..|s|] == s && s[|s|..] == "" && s + "" == s;
    VisibleIsText(s, []);
    VisibleStep(s);
    StripTag(s, "");
    NothingStripped();
    EmptyText();
  }

  lemma NamedWithSlash(name: string, slash: string)
    requires IsName(name) && (slash == "" || slash == "/")
    ensures var s := "[" + (name + (slash + "]")); TagAt(s) == Tag(false, name, |s|)
  {
    var s := "[" + (name + (slash + "]"));
    RunOfName(name, slash + "]");
    assert s[1..] == name + (slash + "]") && s[1] == name[0];
    hide RunLen;
    var b := 1 + |name|;
    assert s[1..b] == name;
    assert s[b..] == slash + "]";
    if slash == "/" { assert s[b] == '/' && s[b + 1] == ']'; } else { assert s[b] == ']'; }
  }

  /** A tag with an unknown name is shown, but stripped. */
  lemma UnknownTagIsShown(name: string)
    requires IsName(name) && !ValidTag(name) && name != "reset"
    ensures var s := "[" + (name + ("" + "]")); Markup(s) && Text(Styled(s, [])) == s && StripAnsi(s) == ""
  {
    NamedWithSlash(name, "");
    hide IsName, ValidTag, TagAt;
    OneTag("[" + (name + ("" + "]")));
  }

  /** A tag with a known name and a trailing slash is consumed, but not stripped. */
  lemma SlashedTagIsLeft(name: string)
    requires IsName(name) && (ValidTag(name) || name == "reset")
    ensures var s := "[" + (name + ("/" + "]")); Markup(s) && Text(Styled(s, [])) == "" && StripAnsi(s) == s
  {
    NamedWithSlash(name, "/");
    hide IsName, ValidTag, TagAt;
    OneTag("[" + (name + ("/" + "]")));
  }

  const STRAY := "[foo]"
  const SLASHED := "[red/]"

  lemma StrayTag()
    ensures Text(Styled(STRAY, [])) == STRAY && StripAnsi(STRAY) == ""
  {
    NotFoo();
    UnknownTagIsShown("foo");
    hide StripAnsi, Styled, Text, Markup, ValidTag;
    assert "[" + ("foo" + ("" + "]")) == STRAY;
  }

  lemma SlashedTag()
    ensures Text(Styled(SLASHED, [])) == "" && StripAnsi(SLASHED) == SLASHED
  {
    RedIsValid();
    SlashedTagIsLeft("red");
    hide StripAnsi, Styled, Text, Markup, ValidTag, IsName;
    assert "[" + ("red" + ("/" + "]")) == SLASHED;
  }

  lemma RedIsValid()
    ensures IsName("red") && ValidTag("red")
  {
    ColorIsName(1);
    assert COLORS[1] == "red";
  }

  /** A bracket that becomes a tag when the one behind it is removed: stripping takes it too, though
      it is shown. So such text is not covered. */
  lemma StrayCompleted(name: string)
    requires IsName(name) && ValidTag(name) && name != "reset"
    ensures var s := "[" + (Open(name) + "/]"); Text(Styled(s, [])) == "[/]" && StripAnsi(s) == "" && !Markup(s)
  {
    var s := "[" + (Open(name) + "/]");
    NothingBefore(s, name);
    AfterAll();
    ShownCompleted(s, name);
    StripCompleted(s, name);
    NotMarkup(s, name);
  }

  lemma ShownCompleted(s: string, name: string)
    requires s == "[" + (Open(name) + "/]") && IsName(name) && ValidTag(name) && name != "reset" && TagAt(s).NoTag? && Visible("/]") == "/]"
    ensures Text(Styled(s, [])) == "[/]"
  {
    assert s != "" && s[0] == '[' && s[1..] == Open(name) + "/]";
    hide TagAt, Open, IsName, ValidTag, Visible, Text, Styled;
    VisibleIsText(s, []);
    VisibleStep(s);
    NamedTag(Open(name), name, "/]");
    assert ['['] + "/]" == "[/]";
  }

  lemma NotMarkup(s: string, name: string)
    requires s == "[" + (Open(name) + "/]") && IsName(name) && TagAt(s).NoTag?
    ensures !Markup(s)
  {
    assert s[1..] == Open(name) + "/]";
    OpenTag(name, "/]");
    hide TagAt, SgrLen, IsName;
    assert s[0..] == s && s[1..][0] == '[';
    assert s[1 + TagRun(s[1..])..] == s[1..];
  }

  lemma NoEscapeIn(s: string)
    requires ESC !in s
    ensures RemoveAll(s, SgrLen) == s
  {
    forall i | 0 <= i < |s| ensures SgrLen((s + "")[i..]) == 0 {
      assert s[i] in s && (s + "")[i..][0] == s[i];
      SgrStart((s + "")[i..]);
    }
    hide SgrLen;
    KeepPiece(s, "", SgrLen);
    assert s + "" == s && s + RemoveAll("", SgrLen) == s;
  }

  lemma NameHasNoEscape(s: string, name: string)
    requires s == "[" + (Open(name) + "/]") && IsName(name)
    ensures ESC !in s
  {
    forall i | 0 <= i < |s| ensures s[i] != ESC {
      if 2 <= i < 2 + |name| { assert s[i] == name[i - 2] && IsNameChar(name[i - 2]); }
    }
  }

  lemma StripCompleted(s: string, name: string)
    requires s == "[" + (Open(name) + "/]") && IsName(name) && PlainTagLen(s) == 0
    requires RemoveAll("/]", PlainTagLen) == "/]" && RemoveAll("[/]", UniversalLen) == ""
    ensures StripAnsi(s) == ""
  {
    NameHasNoEscape(s, name);
    hide *;
    StripNoEscape(s);
    NameGoes(s, name);
  }

  lemma StripNoEscape(s: string)
    requires ESC !in s
    ensures StripAnsi(s) == RemoveAll(RemoveAll(s, PlainTagLen), UniversalLen)
  {
    hide SgrLen, PlainTagLen, UniversalLen, RemoveAll;
    NoEscapeIn(s);
  }

  /** A name in brackets is removed, whatever follows it. */
  lemma NameRemoved(name: string, x: string)
    requires IsName(name)
    ensures RemoveAll(Open(name) + x, PlainTagLen) == RemoveAll(x, PlainTagLen)
  {
    var piece := Open(name);
    OpenTag(name, x);
    assert (piece + x)[..|piece|] == piece && |piece| == |name| + 2 && name != "";
    hide TagAt, PlainTagLen, IsName, RemoveAll, Open;
    PassTag(piece + x, x);
    assert "" + RemoveAll(x, PlainTagLen) == RemoveAll(x, PlainTagLen);
  }

  lemma NameGoes(s: string, name: string)
    requires s == "[" + (Open(name) + "/]") && IsName(name) && PlainTagLen(s) == 0 && RemoveAll("/]", PlainTagLen) == "/]"
    ensures RemoveAll(s, PlainTagLen) == "[/]"
  {
    hide PlainTagLen, IsName, RemoveAll, Open;
    assert s != "" && s[0] == '[' && s[1..] == Open(name) + "/]";
    RemoveStep(s, PlainTagLen);
    NameRemoved(name, "/]");
  }

  lemma NothingBefore(s: string, name: string)
    requires s == "[" + (Open(name) + "/]")
    ensures TagAt(s).NoTag? && PlainTagLen(s) == 0
  {
    assert s[1] == '[';
  }

  lemma AfterAll()
    ensures Visible("/]") == "/]" && RemoveAll("/]", PlainTagLen) == "/]" && RemoveAll("[/]", UniversalLen) == ""
  {
  }

  lemma NotFoo()
    ensures !ValidTag("foo")
  {
    assert |"foo"| == 3;
    forall k | 0 <= k < |COLORS| ensures COLORS[k] != "foo" { NoColor(k); }
  }

  lemma NoColor(k: nat)
    requires k < |COLORS|
    ensures COLORS[k] != "foo"
  {
    if k == 1 { assert COLORS[k] == "red"; }
    else if k == 0 { assert |COLORS[k]| == 5; }
    else if k == 2 { assert |COLORS[k]| == 5; }
    else if k == 3 { assert |COLORS[k]| == 6; }
    else if k == 4 { assert |COLORS[k]| == 4; }
    else if k == 5 { assert |COLORS[k]| == 7; }
    else if k == 6 { assert |COLORS[k]| == 4; }
    else { assert |COLORS[k]| == 5; }
  }

  // ---- The public entry point ----

  datatype Node = Raw(text: string) | Span(classes: Style, text: string)

  function NodeGlyphs(nodes: seq<Node>): seq<Glyph> {
    if nodes == [] then []
    else
      var last := nodes[|nodes| - 1];
      NodeGlyphs(nodes[..|nodes| - 1]) + Glyphs(last.text, if last.Raw? then [] else last.classes)
  }

  method ToNodes(segments: seq<Segment>) returns (nodes: seq<Node>)
    ensures NodeGlyphs(nodes) == SegmentGlyphs(segments) && |nodes| == |segments|
  {
    nodes := [];
    for i := 0 to |segments|
      invariant |nodes| == i && NodeGlyphs(nodes) == SegmentGlyphs(segments[..i])
    {
      var s := segments[i];
      var node := if s.classes == [] then Raw(s.text) else Span(s.classes, s.text);
      assert (nodes + [node])[..i] == nodes;
      assert segments[..i + 1] == segments[..i] + [s];
      SegmentGlyphsStep(segments[..i], s);
      nodes := nodes + [node];
    }
    assert segments[..|segments|] == segments;
  }

  /** Text made of plain characters and SGR sequences is shown as the sequences say, whichever of
      the three paths it takes; text that may also hold tags is shown as stripping leaves it exactly
      when none of its tags is odd or, when it is taken for plain text, removed by stripping. */
  method ParseAnsiText(input: string) returns (nodes: seq<Node>)
    ensures OnlySgr(input) ==> NodeGlyphs(nodes) == Interpret(input, [])
    ensures input == "" ==> nodes == []
    ensures !HasAnsiEscapes(input) && (HasLightweightTags(input) || input == "") ==> NodeGlyphs(nodes) == Styled(input, [])
    ensures Markup(input) && (HasAnsiEscapes(input) || HasLightweightTags(input)) ==>
      (Text(NodeGlyphs(nodes)) == StripAnsi(input) <==> NoneOdd(input))
    ensures Markup(input) && !HasAnsiEscapes(input) && !HasLightweightTags(input) ==>
      (Text(NodeGlyphs(nodes)) == StripAnsi(input) <==> NoneRemoved(input))
  {
    hide SgrLen, TagAt, PlainTagLen, OnlySgr, Markup, NoneOdd, NoneRemoved, StripAnsi, Text, HasAnsiEscapes, HasLightweightTags;
    if Markup(input) {
      ShownIsStripped(input);
      if !HasAnsiEscapes(input) { RawIsStripped(input); TaggedRaw(input); }
    }
    if input == "" {
      NoGlyphsNoText(input);
      return [];
    }
    if !HasAnsiEscapes(input) && !HasLightweightTags(input) {
      nodes := [Raw(input)];
      assert NodeGlyphs(nodes[..0]) == [];
      TextParts([], [], input, []);
      assert NodeGlyphs(nodes) == Glyphs(input, []);
      if OnlySgr(input) { PlainIsRaw(input); }
      return;
    }
    var normalised := input;
    if HasAnsiEscapes(input) { normalised := AnsiEscapesToTags(input); }
    var segments;
    ghost var final;
    segments, final := ParseTaggedText(normalised);
    nodes := ToNodes(segments);
    if OnlySgr(input) {
      if HasAnsiEscapes(input) {
        TranslationPreservesStyle(input, []);
      } else {
        NoTagsWithoutEscapes(input);
      }
    }
  }

  lemma NoGlyphsNoText(input: string)
    requires input == ""
    ensures Text([]) == "" && StripAnsi(input) == "" && NoneOdd(input) && NoneRemoved(input)
  {
  }

  /** Without escapes the translation changes nothing. */
  lemma {:induction false} TaggedRaw(s: string)
    requires !HasAnsiEscapes(s)
    ensures Tagged(s, []) == s
  {
    forall k | 0 <= k < |s| ensures SgrLen(s[k..]) == 0 {
      assert s[k..][0] == s[k] && (k + 1 < |s| ==> s[k..][1] == s[k + 1]);
    }
    hide SgrLen;
    assert s[0..] == s && s[0..|s|] == s && s[|s|..] == "";
    TaggedText(s, 0, |s|, []);
    TaggedEnd([]);
    assert s + "" == s;
  }

  lemma {:induction false} PlainGlyphs(s: string)
    requires '[' !in s
    ensures Interpret(s, []) == Glyphs(s, [])
  {
    if s != "" {
      assert s[0] in s && (|s| > 1 ==> s[1] in s);
      PlainGlyphs(s[1..]);
      assert Glyphs(s, []) == [Glyph(s[0], [])] + Glyphs(s[1..], []);
    }
  }

  lemma NoBracket(s: string)
    requires OnlySgr(s) && !HasAnsiEscapes(s)
    ensures '[' !in s
  {
    forall i | 0 <= i < |s| ensures s[i] != '[' {
      if i > 0 { assert s[i - 1..][0] == s[i - 1] && (SgrLen(s[i - 1..]) > 0 ==> s[i - 1] == ESC); }
    }
  }

  lemma PlainIsRaw(s: string)
    requires OnlySgr(s) && !HasAnsiEscapes(s)
    ensures Interpret(s, []) == Glyphs(s, [])
  {
    NoBracket(s);
    PlainGlyphs(s);
  }

  lemma NoTagsWithoutEscapes(s: string)
    requires OnlySgr(s) && !HasAnsiEscapes(s)
    ensures !HasLightweightTags(s)
  {
    NoBracket(s);
    forall i | 0 <= i < |s| ensures PlainTagLen(s[i..]) == 0 { assert s[i] in s && s[i..][0] == s[i]; }
  }
}
