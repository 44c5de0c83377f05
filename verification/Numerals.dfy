/** Which codes an SGR sequence sends, read off its decimal numerals, and what each code asks for. */
module Numerals {
  import opened Ansi

  const DIGITS := "0123456789"

  predicate IsNumeral(s: string) {
    forall i :: 0 <= i < |s| ==> s[i] in DIGITS
  }

  function Digit(c: char): (d: nat)
    requires c in DIGITS
    ensures d < 10 && DIGITS[d] == c
  {
    var d :| 0 <= d < 10 && DIGITS[d] == c; d
  }

  /** The number a numeral stands for, 0 for none. */
  function Value(s: string): nat
    requires IsNumeral(s)
  {
    if s == "" then 0 else 10 * Value(s[..|s| - 1]) + Digit(s[|s| - 1])
  }

  function Decimal(n: nat): (s: string)
    ensures s != "" && IsNumeral(s)
  {
    if n < 10 then [DIGITS[n]] else Decimal(n / 10) + [DIGITS[n % 10]]
  }

  lemma {:induction false} ValueOfDecimal(n: nat)
    ensures Value(Decimal(n)) == n
  {
    if n < 10 {
      var s := Decimal(n);
      assert s[..0] == "" && Digit(s[0]) == n;
    } else {
      ValueOfDecimal(n / 10);
      DigitAt(n % 10);
      ValueNext(Decimal(n / 10), DIGITS[n % 10]);
    }
  }

  lemma DigitAt(d: nat)
    requires d < 10
    ensures Digit(DIGITS[d]) == d
  {
  }

  // ---- Parameters ----

  /** The parts with semicolons between them. */
  function Join(parts: seq<string>): string {
    if parts == [] then ""
    else if |parts| == 1 then parts[0]
    else parts[0] + ";" + Join(parts[1..])
  }

  predicate AllNumerals(parts: seq<string>) {
    forall i :: 0 <= i < |parts| ==> IsNumeral(parts[i])
  }

  function Values(parts: seq<string>): seq<nat>
    requires AllNumerals(parts)
  {
    seq(|parts|, i requires 0 <= i < |parts| => Value(parts[i]))
  }

  predicate IsParams(p: string) {
    forall i :: 0 <= i < |p| ==> IsParam(p[i])
  }

  lemma NumeralIsParams(s: string)
    requires IsNumeral(s)
    ensures IsParams(s)
  {
  }

  lemma ReadDigit(p: string, acc: nat)
    requires p != "" && IsParams(p) && p[0] in DIGITS
    ensures IsParams(p[1..]) && Numbers(p, acc) == Numbers(p[1..], 10 * acc + Digit(p[0]))
  {
    DigitIs(p[0]);
  }

  lemma ReadEnd(p: string, acc: nat)
    requires IsParams(p) && (p == "" || p[0] == ';')
    ensures Numbers(p, acc) == [acc] + if p == "" then [] else Numbers(p[1..], 0)
  {
  }

  lemma ValueNext(read: string, c: char)
    requires IsNumeral(read) && c in DIGITS
    ensures IsNumeral(read + [c]) && Value(read + [c]) == 10 * Value(read) + Digit(c)
  {
    var next := read + [c];
    assert next[..|next| - 1] == read;
  }

  /** Reading on where the digits read so far stand for acc. */
  lemma {:induction false} ReadPart(part: string, more: string, read: string)
    requires IsNumeral(read) && IsNumeral(part) && IsParams(part + more) && IsParams(more)
    requires more == "" || more[0] == ';'
    ensures IsNumeral(read + part)
    ensures Numbers(part + more, Value(read)) == [Value(read + part)] + if more == "" then [] else Numbers(more[1..], 0)
    decreases |part|
  {
    hide Numbers, Value, Digit;
    if part == "" {
      assert part + more == more && read + part == read;
      ReadEnd(more, Value(read));
    } else {
      var p := part + more;
      assert p[0] == part[0] && p[1..] == part[1..] + more;
      ReadDigit(p, Value(read));
      ValueNext(read, part[0]);
      ReadPart(part[1..], more, read + [part[0]]);
      assert read + [part[0]] + part[1..] == read + part;
    }
  }

  lemma DigitIs(c: char)
    requires c in DIGITS
    ensures Digit(c) == c as int - '0' as int
  {
  }

  lemma {:induction false} JoinIsParams(parts: seq<string>)
    requires AllNumerals(parts)
    ensures IsParams(Join(parts))
  {
    if parts != [] {
      JoinIsParams(parts[1..]);
      NumeralIsParams(parts[0]);
    }
  }

  /** The numbers of parts with semicolons between them are the values of the parts. */
  lemma {:induction false} NumbersOfParts(parts: seq<string>)
    requires parts != [] && AllNumerals(parts)
    ensures IsParams(Join(parts)) && Numbers(Join(parts), 0) == Values(parts)
  {
    hide Numbers, Value, IsNumeral, IsParam;
    var part, rest := parts[0], parts[1..];
    JoinIsParams(parts);
    JoinIsParams(rest);
    ValueOfNone();
    if |parts| == 1 {
      assert part + "" == part && "" + part == part;
      ReadPart(part, "", "");
      assert Values(parts) == [Value(part)];
    } else {
      NumbersOfParts(rest);
      var more := ";" + Join(rest);
      SemicolonIsParam(Join(rest));
      assert Join(parts) == part + more && more[1..] == Join(rest) && "" + part == part;
      ReadPart(part, more, "");
      assert Values(parts) == [Value(part)] + Values(rest);
    }
  }

  lemma ValueOfNone()
    ensures IsNumeral("") && Value("") == 0
  {
  }

  lemma SemicolonIsParam(p: string)
    requires IsParams(p)
    ensures IsParams(";" + p)
  {
  }

  /** Every run of parameter characters is made of parts. */
  lemma {:induction false} PartsOf(p: string) returns (parts: seq<string>)
    requires IsParams(p)
    ensures parts != [] && AllNumerals(parts) && Join(parts) == p
  {
    if p == "" {
      parts := [""];
    } else {
      var rest := PartsOf(p[1..]);
      if p[0] == ';' {
        parts := [""] + rest;
        assert parts[1..] == rest;
      } else {
        parts := [[p[0]] + rest[0]] + rest[1..];
        JoinFirst([p[0]], rest);
      }
    }
  }

  lemma JoinFirst(s: string, rest: seq<string>)
    requires rest != []
    ensures Join([s + rest[0]] + rest[1..]) == s + Join(rest)
  {
    var parts := [s + rest[0]] + rest[1..];
    assert parts[1..] == rest[1..];
    if |rest| > 1 {
      assert s + rest[0] + ";" + Join(rest[1..]) == s + (rest[0] + ";" + Join(rest[1..]));
    }
  }

  // ---- Sequences ----

  /** The SGR sequence with these parameters. */
  function Sequence(parts: seq<string>): string { [ESC, '['] + Join(parts) + "m" }

  lemma {:induction false} ParamsLen(p: string, more: string)
    requires IsParams(p) && (more == "" || !IsParam(more[0]))
    ensures ParamLen(p + more) == |p|
  {
    if p == "" {
      assert p + more == more;
    } else {
      assert (p + more)[0] == p[0] && (p + more)[1..] == p[1..] + more;
      ParamsLen(p[1..], more);
    }
  }

  /** An SGR sequence sends the values of its parts, an empty part counting as 0. */
  lemma CodesOfParts(parts: seq<string>, text: string)
    requires parts != [] && AllNumerals(parts)
    ensures var s := Sequence(parts) + text; SgrLen(s) == |Sequence(parts)| && Codes(s) == Values(parts)
  {
    NumbersOfParts(parts);
    var s, p := Sequence(parts) + text, Join(parts);
    assert s[2..] == p + ("m" + text);
    ParamsLen(p, "m" + text);
    assert s[2..][..|p|] == p;
    assert s[0] == ESC && s[1] == '[' && s[2 + |p|] == (p + ("m" + text))[|p|];
  }

  /** Every SGR sequence is of this form. */
  lemma SequenceOf(s: string) returns (parts: seq<string>)
    requires SgrLen(s) > 0
    ensures parts != [] && AllNumerals(parts) && s[..SgrLen(s)] == Sequence(parts) && Codes(s) == Values(parts)
  {
    var n := ParamLen(s[2..]);
    var p := s[2..][..n];
    parts := PartsOf(p);
    assert s[..3 + n] == [ESC, '['] + p + "m";
    assert s == Sequence(parts) + s[3 + n..];
    CodesOfParts(parts, s[3 + n..]);
  }

  function Decimals(codes: seq<nat>): seq<string> {
    seq(|codes|, i requires 0 <= i < |codes| => Decimal(codes[i]))
  }

  /** The sequence that lists some codes sends these codes, and the bare one sends a reset. */
  lemma CodesOfNumerals(codes: seq<nat>, text: string)
    ensures var s := Sequence(Decimals(codes)) + text;
            SgrLen(s) == |Sequence(Decimals(codes))| && Codes(s) == if codes == [] then [0] else codes
  {
    if codes == [] {
      assert Sequence(Decimals(codes)) == Sequence([""]);
      CodesOfParts([""], text);
    } else {
      var parts := Decimals(codes);
      CodesOfParts(parts, text);
      forall i | 0 <= i < |codes| ensures Values(parts)[i] == codes[i] { ValueOfDecimal(codes[i]); }
      assert Values(parts) == codes;
    }
  }

  // ---- The table ----

  /** The codes with a meaning, one by one. */
  lemma ModifierCodes()
    ensures SgrOf(0) == Reset
    ensures SgrOf(1) == Push("bold") && SgrOf(2) == Push("dim") && SgrOf(3) == Push("italic") && SgrOf(4) == Push("underline")
    ensures forall code: nat :: SgrOf(code) == Unknown <==> code !in {0, 1, 2, 3, 4} && !(30 <= code <= 37) && !(90 <= code <= 97)
  {
  }

  lemma ColorCodes()
    ensures SgrOf(30) == Push("black") && SgrOf(31) == Push("red") && SgrOf(32) == Push("green") && SgrOf(33) == Push("yellow")
    ensures SgrOf(34) == Push("blue") && SgrOf(35) == Push("magenta") && SgrOf(36) == Push("cyan") && SgrOf(37) == Push("white")
  {
  }

  lemma BrightCodes()
    ensures SgrOf(90) == Push("bright-black") && SgrOf(91) == Push("bright-red") && SgrOf(92) == Push("bright-green") && SgrOf(93) == Push("bright-yellow")
    ensures SgrOf(94) == Push("bright-blue") && SgrOf(95) == Push("bright-magenta") && SgrOf(96) == Push("bright-cyan") && SgrOf(97) == Push("bright-white")
  {
  }

  /** The names with a meaning are those of the table. */
  lemma NamesOfTable(name: string)
    ensures ValidTag(name) <==> exists code: nat :: SgrOf(code) == Push(name)
  {
    if ValidTag(name) {
      if name in COLORS {
        var k :| 0 <= k < 8 && COLORS[k] == name;
        assert SgrOf(30 + k) == Push(name);
      } else if name == "bold" { assert SgrOf(1) == Push(name); }
      else if name == "dim" { assert SgrOf(2) == Push(name); }
      else if name == "italic" { assert SgrOf(3) == Push(name); }
      else if name == "underline" { assert SgrOf(4) == Push(name); }
      else {
        var k :| 0 <= k < 8 && COLORS[k] == name[7..];
        assert name == "bright-" + COLORS[k];
        assert SgrOf(90 + k) == Push(name);
      }
    }
    if code: nat :| SgrOf(code) == Push(name) {
      if 90 <= code <= 97 {
        assert name[..7] == "bright-" && name[7..] == COLORS[code - 90];
      }
    }
  }
}
