/** The hand-written parser of `WWW-Authenticate` challenges (section 11.6.1 of RFC 9110 and section 3 of
    RFC 6750). */
module Challenge {
  import opened Wrappers
  import opened Text

  const BEARER := "Bearer "

  /******* Quoted strings, as strconv understands them *******/

  const LETTER_ESCAPES: map<char, char> :=
    map['a' := '\U{7}', 'b' := '\U{8}', 'f' := '\U{C}', 'n' := '\n', 'r' := '\r', 't' := '\t', 'v' := '\U{B}']

  /** Hexadecimal escapes and their number of digits. */
  const HEX_ESCAPES: map<char, nat> := map['x' := 2, 'u' := 4, 'U' := 8]

  predicate IsHex(c: char) { '0' <= c <= '9' || 'a' <= c <= 'f' || 'A' <= c <= 'F' }

  function HexDigit(c: char): int
    requires IsHex(c)
  {
    if '0' <= c <= '9' then c as int - '0' as int
    else if 'a' <= c <= 'f' then c as int - 'a' as int + 10
    else c as int - 'A' as int + 10
  }

  /** The value of the first `n` characters in base 16. */
  function HexPrefix(s: string, n: nat): Option<nat> {
    if n == 0 then Some(0)
    else if |s| < n || !IsHex(s[n - 1]) then None
    else match HexPrefix(s, n - 1)
         case None => None
         case Some(v) => Some(16 * v + HexDigit(s[n - 1]))
  }

  predicate IsOctal(c: char) { '0' <= c <= '7' }

  predicate ValidRune(r: nat) { r < 0xD800 || (0xDFFF < r && r <= 0x10FFFF) }

  /** The value of a three-digit octal escape that fits a byte. */
  function OctalPrefix(s: string): (v: Option<nat>)
    ensures v.Some? ==> v.value < 256
  {
    if |s| >= 3 && IsOctal(s[0]) && IsOctal(s[1]) && IsOctal(s[2])
       && 64 * HexDigit(s[0]) + 8 * HexDigit(s[1]) + HexDigit(s[2]) < 256
    then Some(64 * HexDigit(s[0]) + 8 * HexDigit(s[1]) + HexDigit(s[2])) else None
  }

  function Then(text: string, r: Option<(string, string)>): (t: Option<(string, string)>)
    ensures t.Some? <==> r.Some?
    ensures r.Some? ==> t.value.1 == r.value.1
  {
    match r
    case None => None
    case Some((more, rest)) => Some((text + more, rest))
  }

  /** Reads up to the closing quote: the unquoted text and what follows the quote. */
  function Unquote(s: string): (r: Option<(string, string)>)
    ensures r.Some? ==> HasSuffix(s, r.value.1) && |r.value.1| < |s|
    decreases |s|
  {
    if s == "" || s[0] == '\n' then None
    else if s[0] == '\"' then Some(("", s[1..]))
    else if s[0] == '\\' then UnquoteEscape(s[1..])
    else Then([s[0]], Unquote(s[1..]))
  }

  /** The same after a backslash. */
  function UnquoteEscape(s: string): (r: Option<(string, string)>)
    ensures r.Some? ==> HasSuffix(s, r.value.1) && |r.value.1| < |s|
    decreases |s|
  {
    if s == "" then None
    else if s[0] == '\\' || s[0] == '\"' then Then([s[0]], Unquote(s[1..]))
    else if s[0] in LETTER_ESCAPES then Then([LETTER_ESCAPES[s[0]]], Unquote(s[1..]))
    else if s[0] in HEX_ESCAPES then
      var n := HEX_ESCAPES[s[0]];
      var v := HexPrefix(s[1..], n);
      if v.Some? && n < |s| && ValidRune(v.value) then Then([v.value as char], Unquote(s[n + 1..])) else None
    else
      var v := OctalPrefix(s);
      if v.Some? && |s| >= 3 then Then([v.value as char], Unquote(s[3..])) else None
  }

  /******* The parser *******/

  function ConsumeKey(input: string): (r: (string, string))
    ensures HasSuffix(input, r.1)
  {
    var n := IndexOf(input, '=');
    if n == |input| then (input, "") else (TrimSpace(input[..n]), input[n + 1..])
  }

  predicate IsSeparator(c: char) { c == ',' || c == ' ' || c == '\t' || c == '\r' || c == '\n' }

  function FirstSeparator(s: string): (n: nat)
    ensures n <= |s| && (n < |s| ==> IsSeparator(s[n]))
    ensures forall i :: 0 <= i < n ==> !IsSeparator(s[i])
  {
    if s == "" || IsSeparator(s[0]) then 0 else 1 + FirstSeparator(s[1..])
  }

  /** The token ends before the first separator, which is consumed as well. */
  function ConsumeTokenSpec(input: string): (r: (string, string))
    ensures HasSuffix(input, r.1)
  {
    var n := FirstSeparator(input);
    (TrimSpace(input[..n]), if n < |input| then input[n + 1..] else "")
  }

  /** The first comma, blank, tab, carriage return or line feed ends a token and is gone. */
  ghost predicate CutAt(input: string, n: nat, token: string, rest: string) {
    && n <= |input| && (forall i :: 0 <= i < n ==> input[i] !in ", \t\r\n")
    && token == TrimSpace(input[..n])
    && (if n < |input| then input[n] in ", \t\r\n" && rest == input[n + 1..] else rest == "")
  }

  method ConsumeToken(input: string) returns (token: string, rest: string)
    ensures (token, rest) == ConsumeTokenSpec(input)
    ensures exists n: nat :: CutAt(input, n, token, rest)
  {
    for i := 0 to |input|
      invariant forall j :: 0 <= j < i ==> !IsSeparator(input[j])
    {
      if IsSeparator(input[i]) {
        FirstSeparatorIsUnique(input, i);
        assert CutAt(input, i, TrimSpace(input[..i]), input[i + 1..]);
        return TrimSpace(input[..i]), input[i + 1..];
      }
    }
    FirstSeparatorIsUnique(input, |input|);
    assert input[..|input|] == input;
    assert CutAt(input, |input|, TrimSpace(input), "");
    return TrimSpace(input), "";
  }

  lemma FirstSeparatorIsUnique(s: string, n: nat)
    requires n <= |s| && (n < |s| ==> IsSeparator(s[n])) && forall i :: 0 <= i < n ==> !IsSeparator(s[i])
    ensures FirstSeparator(s) == n
  {
    if n > 0 { FirstSeparatorIsUnique(s[1..], n - 1); }
  }

  function ConsumeQuoted(input: string): (r: (string, string))
    ensures HasSuffix(input, r.1)
  {
    if input == "" || input[0] != '\"' then ("", input) else
      match Unquote(input[1..])
      case None => ("", input)
      case Some(r) => r
  }

  function ConsumeTokenOrQuoted(input: string): (r: (string, string))
    ensures HasSuffix(input, r.1)
  {
    if input != "" && input[0] == '\"' then ConsumeQuoted(input) else ConsumeTokenSpec(input)
  }

  function ConsumeKV(input: string): (r: (string, string, string))
    ensures HasSuffix(input, r.2)
  {
    var (key, afterKey) := ConsumeKey(input);
    if key == "" then ("", "", afterKey) else
      var (value, rest) := ConsumeTokenOrQuoted(afterKey);
      (key, value, rest)
  }

  function ParseParams(header: string, acc: map<string, string>): map<string, string>
    decreases |header|
  {
    if header == "" || header[0] != ',' then acc else
      var (k, v, rest) := ConsumeKV(header[1..]);
      ParseParams(rest, acc[k := v])
  }

  lemma ParseOne(header: string, acc: map<string, string>)
    requires header != "" && header[0] == ','
    ensures var (k, v, rest) := ConsumeKV(header[1..]);
      ParseParams(header, acc) == ParseParams(rest, acc[k := v])
  {
  }

  /** `consumeKV`, with the loop of `consumeToken`. */
  method ReadParam(input: string) returns (key: string, value: string, rest: string)
    ensures (key, value, rest) == ConsumeKV(input)
  {
    var (k, afterKey) := ConsumeKey(input);
    if k == "" { return "", "", afterKey; }
    key := k;
    if afterKey != "" && afterKey[0] == '\"' {
      var (v, r) := ConsumeQuoted(afterKey);
      value, rest := v, r;
    } else {
      value, rest := ConsumeToken(afterKey);
    }
  }

  datatype ChallengeError = UnexpectedAuthType

  /** Every round of the loop leaves a strictly shorter suffix of the header. */
  method ParseWWWAuthenticate(challenge: string) returns (r: Result<map<string, string>, ChallengeError>)
    ensures r.Ok? <==> BEARER <= challenge
    ensures r.Ok? ==> r.value == ParseParams("," + challenge[|BEARER|..], map[])
  {
    if !(BEARER <= challenge) { return Err(UnexpectedAuthType); }
    var header := "," + challenge[|BEARER|..];
    ghost var start := header;
    var result: map<string, string> := map[];
    while header != "" && header[0] == ','
      invariant HasSuffix(start, header)
      invariant ParseParams(start, map[]) == ParseParams(header, result)
      decreases |header|
    {
      ParseOne(header, result);
      header := header[1..];
      var k, v;
      k, v, header := ReadParam(header);
      result := result[k := v];
    }
    return Ok(result);
  }
}
