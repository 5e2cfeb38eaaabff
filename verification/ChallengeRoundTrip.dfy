/** Printing challenges and what the parser recovers from them. */
module ChallengeRoundTrip {
  import opened Wrappers
  import opened Text
  import opened Challenge

  /** One parameter, with the white space around its key. An unquoted value may have a separator of its own
      behind it, before the comma that introduces the next parameter. */
  datatype Param =
    | Quoted(pad: string, key: string, gap: string, value: string)
    | Bare(pad: string, key: string, gap: string, value: string, close: string)

  predicate IsToken(s: string) {
    NoSpace(s) && forall i :: 0 <= i < |s| ==> s[i] != '=' && s[i] != ',' && s[i] != '\"'
  }

  /** Quoted values are arbitrary text on one line; bare values are tokens. */
  predicate Valid(p: Param) {
    && AllSpace(p.pad) && AllSpace(p.gap) && p.key != "" && IsToken(p.key)
    && (if p.Quoted? then '\n' !in p.value
        else NoSpace(p.value) && ',' !in p.value && '\"' !in p.value && IsClose(p.close))
  }

  predicate IsClose(s: string) { s == "" || (|s| == 1 && s[0] in ", \t\r\n") }

  /** An unquoted value with nothing but a comma behind it. */
  predicate Open(p: Param) { p.Bare? && p.close == "" }

  /** Backslash escapes for quotes and backslashes only. */
  function EscapeAll(v: string): string {
    if v == "" then ""
    else EscapeChar(v[0]) + EscapeAll(v[1..])
  }

  function PrintParam(p: Param): string {
    p.pad + p.key + p.gap + "=" + if p.Quoted? then "\"" + EscapeAll(p.value) + "\"" else p.value + p.close
  }

  function PrintParams(ps: seq<Param>): string
    requires ps != []
  {
    if |ps| == 1 then PrintParam(ps[0]) else PrintParam(ps[0]) + "," + PrintParams(ps[1..])
  }

  function Print(ps: seq<Param>): string
    requires ps != []
  {
    BEARER + PrintParams(ps)
  }

  /** The parameters up to and including the first open one. */
  function UpToFirstOpen(ps: seq<Param>): seq<Param> {
    if ps == [] then [] else if Open(ps[0]) then [ps[0]] else [ps[0]] + UpToFirstOpen(ps[1..])
  }

  /** Pairs as a map, the last duplicate winning. */
  function Collect(ps: seq<Param>, acc: map<string, string>): map<string, string> {
    if ps == [] then acc else Collect(ps[1..], acc[ps[0].key := ps[0].value])
  }

  lemma UnquotePlain(c: char, rest: string)
    requires c != '\"' && c != '\\' && c != '\n'
    ensures Unquote([c] + rest) == Then([c], Unquote(rest))
  {
    assert ([c] + rest)[1..] == rest;
  }

  lemma UnquoteBackslash(c: char, rest: string)
    requires c == '\"' || c == '\\'
    ensures Unquote(['\\', c] + rest) == Then([c], Unquote(rest))
  {
    assert (['\\', c] + rest)[1..] == [c] + rest;
    assert ([c] + rest)[1..] == rest;
    assert UnquoteEscape([c] + rest) == Then([c], Unquote(rest));
  }

  function EscapeChar(c: char): string { if c == '\"' || c == '\\' then ['\\', c] else [c] }

  lemma EscapedShape(v: string, tail: string)
    requires v != ""
    ensures EscapeAll(v) + "\"" + tail == EscapeChar(v[0]) + (EscapeAll(v[1..]) + "\"" + tail)
  {
  }

  /** A quoted value is read back exactly when it has no line break. */
  lemma {:induction false} UnquoteEscaped(v: string, tail: string)
    ensures Unquote(EscapeAll(v) + "\"" + tail) == if '\n' !in v then Some((v, tail)) else None
  {
    var s := EscapeAll(v) + "\"" + tail;
    if v == "" {
      assert s == "\"" + tail;
      assert s[1..] == tail;
    } else {
      UnquoteEscaped(v[1..], tail);
      var rest := EscapeAll(v[1..]) + "\"" + tail;
      assert [v[0]] + v[1..] == v;
      EscapedShape(v, tail);
      if v[0] == '\"' || v[0] == '\\' {
        UnquoteBackslash(v[0], rest);
      } else if v[0] != '\n' {
        UnquotePlain(v[0], rest);
      }
    }
  }

  /** A way to write one character in a quoted string. */
  datatype Spelling = AsIs | Backslashed | Letter | Hex(digits: nat, upper: bool) | Octal

  /** The digit `d` in bases up to 16. */
  function Digit(d: nat, upper: bool): char
    requires d < 16
  {
    if upper then "0123456789ABCDEF"[d] else "0123456789abcdef"[d]
  }

  function InBase16(v: nat, n: nat, upper: bool): string {
    if n == 0 then "" else InBase16(v / 16, n - 1, upper) + [Digit(v % 16, upper)]
  }

  function Power16(n: nat): nat { if n == 0 then 1 else 16 * Power16(n - 1) }

  predicate CanSpell(c: char, how: Spelling) {
    match how
    case AsIs => c != '\"' && c != '\\' && c != '\n'
    case Backslashed => c == '\"' || c == '\\'
    case Letter => c as int in [7, 8, 12, 10, 13, 9, 11]
    case Hex(n, _) => (n == 2 || n == 4 || n == 8) && c as int < Power16(n)
    case Octal => c as int < 256
  }

  function Spell(c: char, how: Spelling): string
    requires CanSpell(c, how)
  {
    match how
    case AsIs => [c]
    case Backslashed => ['\\', c]
    case Letter =>
      if c as int == 7 then "\\a" else if c as int == 8 then "\\b" else if c as int == 12 then "\\f"
      else if c as int == 10 then "\\n" else if c as int == 13 then "\\r" else if c as int == 9 then "\\t" else "\\v"
    case Hex(n, upper) => (if n == 2 then "\\x" else if n == 4 then "\\u" else "\\U") + InBase16(c as int, n, upper)
    case Octal => ['\\', Digit(c as int / 8 / 8, false), Digit(c as int / 8 % 8, false), Digit(c as int % 8, false)]
  }

  lemma {:induction false} ReadsBase16(v: nat, n: nat, upper: bool, tail: string)
    requires v < Power16(n)
    ensures |InBase16(v, n, upper)| == n && HexPrefix(InBase16(v, n, upper) + tail, n) == Some(v)
  {
    if n > 0 {
      ReadsBase16(v / 16, n - 1, upper, [Digit(v % 16, upper)] + tail);
      var s := InBase16(v, n, upper) + tail;
      assert s == InBase16(v / 16, n - 1, upper) + ([Digit(v % 16, upper)] + tail);
      assert s[n - 1] == Digit(v % 16, upper);
      DigitIsHex(v % 16, upper);
    }
  }

  lemma DigitIsHex(d: nat, upper: bool)
    requires d < 16
    ensures IsHex(Digit(d, upper)) && HexDigit(Digit(d, upper)) == d && (d < 8 ==> IsOctal(Digit(d, upper)))
  {
  }

  lemma UnquoteBackslashed(e: string)
    ensures Unquote(['\\'] + e) == UnquoteEscape(e)
  {
    assert (['\\'] + e)[1..] == e;
  }

  lemma SpelledLetter(c: char, tail: string)
    requires CanSpell(c, Letter)
    ensures Unquote(Spell(c, Letter) + tail) == Then([c], Unquote(tail))
  {
    var l := Spell(c, Letter)[1];
    assert Spell(c, Letter) + tail == ['\\'] + ([l] + tail);
    UnquoteBackslashed([l] + tail);
    assert ([l] + tail)[1..] == tail;
  }

  lemma ReadsHexEscape(k: char, body: string, c: char, tail: string)
    requires k in HEX_ESCAPES && |body| == HEX_ESCAPES[k] && HexPrefix(body + tail, |body|) == Some(c as int)
    ensures UnquoteEscape([k] + (body + tail)) == Then([c], Unquote(tail))
  {
    var s := [k] + (body + tail);
    assert s[1..] == body + tail;
    assert s[|body| + 1..] == tail;
  }

  function HexKind(n: nat): char { if n == 2 then 'x' else if n == 4 then 'u' else 'U' }

  lemma HexShape(c: char, n: nat, upper: bool, tail: string)
    requires CanSpell(c, Hex(n, upper))
    ensures Spell(c, Hex(n, upper)) + tail == ['\\'] + ([HexKind(n)] + (InBase16(c as int, n, upper) + tail))
  {
  }

  lemma SpelledHex(c: char, n: nat, upper: bool, tail: string)
    requires CanSpell(c, Hex(n, upper))
    ensures Unquote(Spell(c, Hex(n, upper)) + tail) == Then([c], Unquote(tail))
  {
    HexShape(c, n, upper, tail);
    UnquoteBackslashed([HexKind(n)] + (InBase16(c as int, n, upper) + tail));
    ReadsBase16(c as int, n, upper, tail);
    ReadsHexEscape(HexKind(n), InBase16(c as int, n, upper), c, tail);
  }

  lemma ReadsOctalEscape(a: char, b: char, d: char, c: char, tail: string)
    requires IsOctal(a) && IsOctal(b) && IsOctal(d) && c as int < 256
    requires 64 * HexDigit(a) + 8 * HexDigit(b) + HexDigit(d) == c as int
    ensures UnquoteEscape([a, b, d] + tail) == Then([c], Unquote(tail))
  {
    var s := [a, b, d] + tail;
    assert s[3..] == tail;
    assert OctalPrefix(s) == Some(c as int);
  }

  lemma OctalDigits(v: nat)
    requires v < 256
    ensures v / 8 / 8 < 8 && 64 * (v / 8 / 8) + 8 * (v / 8 % 8) + v % 8 == v
  {
    var q := v / 8;
    assert v == 8 * q + v % 8 && q == 8 * (q / 8) + q % 8;
  }

  lemma SpelledOctal(c: char, tail: string)
    requires CanSpell(c, Octal)
    ensures Unquote(Spell(c, Octal) + tail) == Then([c], Unquote(tail))
  {
    var v := c as int;
    OctalDigits(v);
    var a, b, d := Digit(v / 8 / 8, false), Digit(v / 8 % 8, false), Digit(v % 8, false);
    DigitIsHex(v / 8 / 8, false);
    DigitIsHex(v / 8 % 8, false);
    DigitIsHex(v % 8, false);
    assert Spell(c, Octal) + tail == ['\\'] + ([a, b, d] + tail);
    UnquoteBackslashed([a, b, d] + tail);
    ReadsOctalEscape(a, b, d, c, tail);
  }

  lemma SpelledIsRead(c: char, how: Spelling, tail: string)
    requires CanSpell(c, how)
    ensures Unquote(Spell(c, how) + tail) == Then([c], Unquote(tail))
  {
    match how
    case AsIs => UnquotePlain(c, tail);
    case Backslashed => UnquoteBackslash(c, tail);
    case Letter => SpelledLetter(c, tail);
    case Hex(n, upper) => SpelledHex(c, n, upper, tail);
    case Octal => SpelledOctal(c, tail);
  }

  function SpellAll(v: string, how: seq<Spelling>): string
    requires |how| == |v| && forall i :: 0 <= i < |v| ==> CanSpell(v[i], how[i])
  {
    if v == "" then "" else Spell(v[0], how[0]) + SpellAll(v[1..], how[1..])
  }

  /** Any text, each character spelled in any of the ways a quoted string has for it, is read back. */
  lemma {:induction false} UnquoteSpelled(v: string, how: seq<Spelling>, tail: string)
    requires |how| == |v| && forall i :: 0 <= i < |v| ==> CanSpell(v[i], how[i])
    ensures Unquote(SpellAll(v, how) + "\"" + tail) == Some((v, tail))
  {
    var s := SpellAll(v, how) + "\"" + tail;
    if v == "" {
      assert s == "\"" + tail;
      assert s[1..] == tail;
    } else {
      UnquoteSpelled(v[1..], how[1..], tail);
      var rest := SpellAll(v[1..], how[1..]) + "\"" + tail;
      assert s == Spell(v[0], how[0]) + rest;
      SpelledIsRead(v[0], how[0], rest);
      assert [v[0]] + v[1..] == v;
    }
  }

  lemma ConsumePrintedKey(p: Param, tail: string)
    requires Valid(p)
    ensures ConsumeKey(p.pad + p.key + p.gap + "=" + tail) == (p.key, tail)
  {
    var head := p.pad + p.key + p.gap;
    var s := head + "=" + tail;
    forall i | 0 <= i < |head| ensures s[i] != '=' {
      if i < |p.pad| { assert IsSpace(p.pad[i]); }
      else if i < |p.pad| + |p.key| { assert p.key[i - |p.pad|] != '='; }
      else { assert IsSpace(p.gap[i - |p.pad| - |p.key|]); }
    }
    IndexOfIsUnique(s, '=', |head|);
    assert s[..|head|] == head && s[|head| + 1..] == tail;
    TrimSpaceOfPadded(p.pad, p.key, p.gap);
  }

  lemma ConsumeParts(input: string, key: string, after: string, value: string, rest: string)
    requires ConsumeKey(input) == (key, after) && key != "" && ConsumeTokenOrQuoted(after) == (value, rest)
    ensures ConsumeKV(input) == (key, value, rest)
  {
  }

  lemma ConsumeQuotedValue(v: string, tail: string)
    requires '\n' !in v
    ensures ConsumeTokenOrQuoted("\"" + EscapeAll(v) + "\"" + tail) == (v, tail)
  {
    var after := "\"" + EscapeAll(v) + "\"" + tail;
    assert after[1..] == EscapeAll(v) + "\"" + tail;
    UnquoteEscaped(v, tail);
  }

  lemma QuotedShape(p: Param, tail: string)
    requires p.Quoted?
    ensures PrintParam(p) + tail == p.pad + p.key + p.gap + "=" + ("\"" + EscapeAll(p.value) + "\"" + tail)
  {
  }

  lemma BareShape(p: Param, tail: string)
    requires p.Bare?
    ensures PrintParam(p) + tail == p.pad + p.key + p.gap + "=" + (p.value + (p.close + tail))
  {
  }

  lemma ConsumePrintedQuoted(p: Param, tail: string)
    requires Valid(p) && p.Quoted?
    ensures ConsumeKV(PrintParam(p) + tail) == (p.key, p.value, tail)
  {
    var after := "\"" + EscapeAll(p.value) + "\"" + tail;
    ConsumePrintedKey(p, after);
    ConsumeQuotedValue(p.value, tail);
    QuotedShape(p, tail);
    ConsumeParts(PrintParam(p) + tail, p.key, after, p.value, tail);
  }

  /** What is left after a bare value: the separator that ends it is gone too. */
  function AfterBare(tail: string): string { if tail == "" then "" else tail[1..] }

  predicate AtSeparator(tail: string) { tail == "" || tail[0] in ", \t\r\n" }

  lemma SeparatorAfterToken(v: string, tail: string)
    requires NoSpace(v) && ',' !in v && AtSeparator(tail)
    ensures FirstSeparator(v + tail) == |v|
  {
    var after := v + tail;
    forall i | 0 <= i < |v| ensures !IsSeparator(after[i]) {
      assert after[i] == v[i] && v[i] in v && !IsSpace(v[i]);
    }
    FirstSeparatorIsUnique(after, |v|);
  }

  lemma TakeToken(v: string, tail: string)
    ensures (v + tail)[..|v|] == v
    ensures tail != "" ==> (v + tail)[|v| + 1..] == tail[1..]
  {
  }

  lemma TokenIsTrimmed(v: string)
    requires NoSpace(v)
    ensures TrimSpace(v) == v
  {
    TrimSpaceOfPadded("", v, "");
    assert "" + v + "" == v;
  }

  lemma ConsumeBareToken(v: string, tail: string)
    requires NoSpace(v) && ',' !in v && AtSeparator(tail)
    ensures ConsumeTokenSpec(v + tail) == (v, AfterBare(tail))
  {
    SeparatorAfterToken(v, tail);
    TakeToken(v, tail);
    TokenIsTrimmed(v);
  }

  lemma NoQuoteAhead(v: string, tail: string)
    requires '\"' !in v && AtSeparator(tail)
    ensures v + tail == "" || (v + tail)[0] != '\"'
  {
    if v != "" { assert (v + tail)[0] == v[0] && v[0] in v; }
  }

  lemma ConsumeBareValue(v: string, tail: string)
    requires NoSpace(v) && ',' !in v && '\"' !in v && AtSeparator(tail)
    ensures ConsumeTokenOrQuoted(v + tail) == (v, AfterBare(tail))
  {
    NoQuoteAhead(v, tail);
    ConsumeBareToken(v, tail);
  }

  /** A bare value takes the separator after it with it. */
  lemma ConsumePrintedBare(p: Param, tail: string)
    requires Valid(p) && p.Bare? && AtSeparator(p.close + tail)
    ensures ConsumeKV(PrintParam(p) + tail) == (p.key, p.value, AfterBare(p.close + tail))
  {
    var after := p.value + (p.close + tail);
    ConsumePrintedKey(p, after);
    ConsumeBareValue(p.value, p.close + tail);
    BareShape(p, tail);
    ConsumeParts(PrintParam(p) + tail, p.key, after, p.value, AfterBare(p.close + tail));
  }

  lemma PrintedHeadIsNoComma(ps: seq<Param>)
    requires ps != [] && Valid(ps[0])
    ensures PrintParams(ps) != "" && PrintParams(ps)[0] != ','
  {
    var p := ps[0];
    if p.pad == "" { assert PrintParams(ps)[0] == p.key[0]; } else { assert PrintParams(ps)[0] == p.pad[0]; }
  }

  lemma DropComma(input: string)
    ensures ("," + input)[1..] == input
  {
  }

  lemma ParseStops(rest: string, acc: map<string, string>)
    requires rest == "" || rest[0] != ','
    ensures ParseParams(rest, acc) == acc
  {
  }

  /** Whatever follows an unquoted value: the parse goes on exactly when the byte after the separator that
      ends the value is a comma, and otherwise ends with this pair. */
  lemma BareEndsParseUnlessComma(p: Param, tail: string, acc: map<string, string>)
    requires Valid(p) && p.Bare? && AtSeparator(p.close + tail)
    ensures var rest := AfterBare(p.close + tail);
      ParseParams("," + (PrintParam(p) + tail), acc) ==
        if rest != "" && rest[0] == ',' then ParseParams(rest, acc[p.key := p.value]) else acc[p.key := p.value]
  {
    var rest := AfterBare(p.close + tail);
    ConsumePrintedBare(p, tail);
    ParseOne("," + (PrintParam(p) + tail), acc);
    DropComma(PrintParam(p) + tail);
    if rest == "" || rest[0] != ',' { ParseStops(rest, acc[p.key := p.value]); }
  }

  lemma ParseOpen(p: Param, tail: string, acc: map<string, string>)
    requires Valid(p) && Open(p) && (tail == "" || tail[0] == ',')
    requires AfterBare(tail) == "" || AfterBare(tail)[0] != ','
    ensures ParseParams("," + (PrintParam(p) + tail), acc) == acc[p.key := p.value]
  {
    assert p.close + tail == tail;
    BareEndsParseUnlessComma(p, tail, acc);
  }

  lemma ParseClosed(p: Param, tail: string, acc: map<string, string>)
    requires Valid(p) && p.Bare? && !Open(p) && (tail == "" || tail[0] == ',')
    ensures ParseParams("," + (PrintParam(p) + tail), acc) == ParseParams(tail, acc[p.key := p.value])
  {
    assert (p.close + tail)[0] == p.close[0];
    assert AfterBare(p.close + tail) == tail;
    BareEndsParseUnlessComma(p, tail, acc);
    if tail == "" { ParseStops(tail, acc[p.key := p.value]); }
  }

  lemma ParseQuoted(p: Param, tail: string, acc: map<string, string>)
    requires Valid(p) && p.Quoted?
    ensures ParseParams("," + (PrintParam(p) + tail), acc) == ParseParams(tail, acc[p.key := p.value])
  {
    ConsumePrintedQuoted(p, tail);
    ParseOne("," + (PrintParam(p) + tail), acc);
    DropComma(PrintParam(p) + tail);
  }

  /** What is printed after the first parameter. */
  function Tail(ps: seq<Param>): string
    requires ps != []
  {
    if |ps| == 1 then "" else "," + PrintParams(ps[1..])
  }

  lemma NothingAdded(a: string)
    ensures a + "" == a
  {
  }

  lemma TailShape(ps: seq<Param>)
    requires ps != []
    ensures PrintParams(ps) == PrintParam(ps[0]) + Tail(ps)
  {
    if |ps| == 1 { NothingAdded(PrintParam(ps[0])); } else { Regroup(PrintParam(ps[0]), ",", PrintParams(ps[1..])); }
  }

  lemma TailHead(ps: seq<Param>)
    requires ps != [] && forall i :: 0 <= i < |ps| ==> Valid(ps[i])
    ensures Tail(ps) == "" || Tail(ps)[0] == ','
    ensures AfterBare(Tail(ps)) == "" || AfterBare(Tail(ps))[0] != ','
  {
    if |ps| > 1 {
      PrintedHeadIsNoComma(ps[1..]);
      assert AfterBare(Tail(ps)) == PrintParams(ps[1..]);
    }
  }

  lemma {:induction false} ParsePrintedParams(ps: seq<Param>, acc: map<string, string>)
    requires ps != [] && forall i :: 0 <= i < |ps| ==> Valid(ps[i])
    ensures ParseParams("," + PrintParams(ps), acc) == Collect(UpToFirstOpen(ps), acc)
  {
    var p := ps[0];
    TailShape(ps);
    TailHead(ps);
    if Open(p) {
      ParseOpen(p, Tail(ps), acc);
      CollectOne(p, [], acc);
      assert [p] + [] == [p];
    } else {
      if p.Bare? { ParseClosed(p, Tail(ps), acc); } else { ParseQuoted(p, Tail(ps), acc); }
      CollectOne(p, UpToFirstOpen(ps[1..]), acc);
      if |ps| > 1 {
        ParsePrintedParams(ps[1..], acc[p.key := p.value]);
      } else {
        ParseStops("", acc[p.key := p.value]);
      }
    }
  }

  lemma CollectOne(p: Param, ps: seq<Param>, acc: map<string, string>)
    ensures Collect([p] + ps, acc) == Collect(ps, acc[p.key := p.value])
  {
    assert ([p] + ps)[1..] == ps;
  }

  /** Parsing a printed challenge recovers exactly the pairs up to and including the first unquoted value
      with nothing but a comma behind it, the last duplicate winning. */
  lemma ParsePrinted(ps: seq<Param>)
    requires ps != [] && forall i :: 0 <= i < |ps| ==> Valid(ps[i])
    ensures BEARER <= Print(ps)
    ensures ParseParams("," + Print(ps)[|BEARER|..], map[]) == Collect(UpToFirstOpen(ps), map[])
  {
    assert Print(ps)[|BEARER|..] == PrintParams(ps);
    ParsePrintedParams(ps, map[]);
  }

  /** Without an equals sign, whatever follows the scheme is one key with an empty value, commas and white
      space included. */
  lemma NoEqualsSign(s: string, acc: map<string, string>)
    requires '=' !in s
    ensures ParseParams("," + s, acc) == acc[s := ""]
  {
    DropComma(s);
    IndexOfIsUnique(s, '=', |s|);
    assert ConsumeKey(s) == (s, "");
    assert ConsumeKV(s) == (s, "", "");
    ParseOne("," + s, acc);
    ParseStops("", acc[s := ""]);
  }

  /** A parameter without a name yields an empty pair and leaves its value, which is skipped only if empty. */
  lemma NamelessParameter(pad: string, tail: string, acc: map<string, string>)
    requires AllSpace(pad)
    ensures ParseParams("," + (pad + "=" + tail), acc) == ParseParams(tail, acc["" := ""])
  {
    var s := pad + "=" + tail;
    DropComma(s);
    forall i | 0 <= i < |pad| ensures s[i] != '=' { assert IsSpace(pad[i]); }
    IndexOfIsUnique(s, '=', |pad|);
    assert s[..|pad|] == pad && s[|pad| + 1..] == tail;
    TrimSpaceOfPadded(pad, "", "");
    assert pad + "" + "" == pad;
    ParseOne("," + s, acc);
  }

  /** A quoted value that cannot be read counts as empty and ends the parse where it stands. */
  lemma UnreadableQuoteEnds(pad: string, key: string, gap: string, text: string, acc: map<string, string>)
    requires Valid(Quoted(pad, key, gap, "")) && Unquote(text).None?
    ensures ConsumeTokenOrQuoted("\"" + text) == ("", "\"" + text)
    ensures ParseParams("," + (pad + key + gap + "=" + ("\"" + text)), acc) == acc[key := ""]
  {
    var after := "\"" + text;
    assert after[1..] == text;
    var s := pad + key + gap + "=" + after;
    ConsumePrintedKey(Quoted(pad, key, gap, ""), after);
    ConsumeParts(s, key, after, "", after);
    ParseOne("," + s, acc);
    DropComma(s);
    ParseStops(after, acc[key := ""]);
  }

  /** A challenge without parameters is not parsed to the empty map. */
  lemma EmptyChallenge()
    ensures ParseParams("," + "", map[]) == map["" := ""]
  {
    NoEqualsSign("", map[]);
  }

  /** With every value quoted or followed by a separator of its own, printing and parsing is a round trip. */
  lemma RoundTrip(ps: seq<Param>)
    requires ps != [] && forall i :: 0 <= i < |ps| ==> Valid(ps[i]) && !Open(ps[i])
    ensures ParseParams("," + Print(ps)[|BEARER|..], map[]) == Collect(ps, map[])
  {
    ParsePrinted(ps);
    NoneOpen(ps);
  }

  lemma {:induction false} NoneOpen(ps: seq<Param>)
    requires forall i :: 0 <= i < |ps| ==> !Open(ps[i])
    ensures UpToFirstOpen(ps) == ps
  {
    if ps != [] { NoneOpen(ps[1..]); }
  }

  /** What `Collect` means: a key maps to the value of its last occurrence. */
  lemma {:induction false} CollectTakesLast(ps: seq<Param>, acc: map<string, string>, i: nat)
    requires i < |ps| && forall j :: i < j < |ps| ==> ps[j].key != ps[i].key
    ensures ps[i].key in Collect(ps, acc) && Collect(ps, acc)[ps[i].key] == ps[i].value
  {
    if i > 0 {
      CollectTakesLast(ps[1..], acc[ps[0].key := ps[0].value], i - 1);
    } else {
      CollectKeeps(ps[1..], acc[ps[0].key := ps[0].value], ps[0].key);
    }
  }

  lemma {:induction false} CollectKeeps(ps: seq<Param>, acc: map<string, string>, k: string)
    requires forall j :: 0 <= j < |ps| ==> ps[j].key != k
    ensures k in Collect(ps, acc) <==> k in acc
    ensures k in acc ==> Collect(ps, acc)[k] == acc[k]
  {
    if ps != [] {
      assert ps[0].key != k;
      CollectKeeps(ps[1..], acc[ps[0].key := ps[0].value], k);
    }
  }
}
