/** From a URI to registry, repository and cache key (the pull endpoints of the OCI Distribution
    Specification). */
module OciKeys {
  import opened Wrappers
  import opened Text

  const V2 := "/v2/"
  const TAGS := "/tags/list"
  const BLOBS := "/blobs/"
  const MANIFESTS := "/manifests/"

  datatype Derived =
    | Repository(registry: Bytes, repository: Bytes)
    | Ignored
    | Invalid

  function TrimSuffix(s: Bytes, t: string): Bytes { if HasSuffix(s, t) then s[..|s| - |t|] else s }

  function DeriveRepository(parsed: Option<Url>): Derived {
    if parsed.None? then Invalid else
      var u := parsed.value;
      if u.scheme != "https" || u.host == "" then Invalid
      else if !(V2 <= u.path) then Ignored
      else if u.path == V2 || u.path == "/v2" then Ignored
      else DeriveFrom(u.host, u.path[|V2|..])
  }

  /** The part after the `/v2/` prefix. */
  function DeriveFrom(host: Bytes, endpoint: Bytes): Derived {
    if HasSuffix(endpoint, TAGS) then Repository(host, TrimSuffix(endpoint, TAGS))
    else
      var parts := Split(endpoint, '/');
      if |parts| < 3 then Ignored
      else
        var kind, last := parts[|parts| - 2], parts[|parts| - 1];
        if kind == "blobs" then Repository(host, TrimSuffix(endpoint, BLOBS + last))
        else if kind == "manifests" then Repository(host, TrimSuffix(endpoint, MANIFESTS + last))
        else Ignored
  }

  /** The test for the bare version endpoint changes nothing: its second half never succeeds behind the
      test for the prefix, and the path of its first half is ignored anyway. */
  lemma VersionTestIsRedundant(u: Url)
    requires HasRegistry(u) && V2 <= u.path
    ensures u.path != "/v2" && DeriveRepository(Some(u)) == DeriveFrom(u.host, u.path[|V2|..])
  {
    if u.path == V2 {
      var e := u.path[|V2|..];
      assert e == "" && LastIndexOf("", '/') == -1 && Split("", '/') == [""];
    }
  }

  /******* The pull endpoints *******/

  predicate SlashFree(s: string) { '/' !in s }

  /** What may follow a repository name in a pull endpoint. */
  ghost predicate IsPullSuffix(t: string) {
    t == TAGS || (exists x :: SlashFree(x) && t == BLOBS + x) || (exists x :: SlashFree(x) && t == MANIFESTS + x)
  }

  ghost predicate IsPullEndpoint(path: Bytes, name: Bytes, t: string) { path == V2 + name + t && IsPullSuffix(t) }

  /** `/kind/x`, and the same after a name. */
  function Suffix(kind: string, x: string): string { "/" + kind + "/" + x }

  function Named(name: string, kind: string, x: string): string { name + "/" + kind + "/" + x }

  lemma SuffixOfName(name: string, kind: string, x: string)
    ensures name + Suffix(kind, x) == Named(name, kind, x)
  {
  }

  lemma SuffixLiterals(x: string)
    ensures Suffix("tags", "list") == TAGS
    ensures Suffix("blobs", x) == BLOBS + x
    ensures Suffix("manifests", x) == MANIFESTS + x
  {
    assert "/" + "blobs" + "/" == BLOBS;
    assert "/" + "manifests" + "/" == MANIFESTS;
    assert "/" + "tags" + "/" == "/tags/";
  }

  lemma CutSuffix(name: string, t: string)
    ensures HasSuffix(name + t, t) && (name + t)[..|name + t| - |t|] == name
  {
  }

  lemma SplitNamed(name: string, kind: string, x: string)
    requires SlashFree(kind) && SlashFree(x)
    ensures Split(Named(name, kind, x), '/') == Split(name, '/') + [kind, x]
  {
    SplitSnoc(name, '/', kind);
    SplitSnoc(name + "/" + kind, '/', x);
    assert Split(name, '/') + [kind] + [x] == Split(name, '/') + [kind, x];
  }

  lemma UnsplitNamed(e: string) returns (name: string)
    requires |Split(e, '/')| >= 3
    ensures var parts := Split(e, '/');
      && SlashFree(parts[|parts| - 1])
      && e == Named(name, parts[|parts| - 2], parts[|parts| - 1])
  {
    var a, x := SplitUnsnoc(e, '/');
    var n, k := SplitUnsnoc(a, '/');
    name := n;
  }

  predicate PullKind(kind: string, x: string) {
    kind == "blobs" || kind == "manifests" || (kind == "tags" && x == "list")
  }

  lemma PullSuffixParts(t: string) returns (kind: string, x: string)
    requires IsPullSuffix(t)
    ensures t == Suffix(kind, x) && PullKind(kind, x) && SlashFree(kind) && SlashFree(x)
    ensures t == TAGS ==> kind == "tags"
  {
    if t == TAGS {
      kind, x := "tags", "list";
    } else if y :| SlashFree(y) && t == BLOBS + y {
      kind, x := "blobs", y;
    } else {
      var y :| SlashFree(y) && t == MANIFESTS + y;
      kind, x := "manifests", y;
    }
    SuffixLiterals(x);
  }

  /** The kinds of endpoint are told apart by their last but one part. */
  lemma SuffixParts(name: string, t: string) returns (kind: string, x: string)
    requires IsPullSuffix(t)
    ensures t == Suffix(kind, x) && PullKind(kind, x) && (t == TAGS ==> kind == "tags")
    ensures Split(name + t, '/') == Split(name, '/') + [kind, x]
  {
    kind, x := PullSuffixParts(t);
    SuffixOfName(name, kind, x);
    SplitNamed(name, kind, x);
  }

  /** No endpoint has two readings. */
  lemma ReadingIsUnique(name: string, t: string, name': string, t': string)
    requires IsPullSuffix(t) && IsPullSuffix(t') && name + t == name' + t'
    ensures name == name' && t == t'
  {
    var kind, x := SuffixParts(name, t);
    var kind', x' := SuffixParts(name', t');
    var parts := Split(name + t, '/');
    assert parts[|parts| - 2] == kind && parts[|parts| - 1] == x;
    assert parts[|parts| - 2] == kind' && parts[|parts| - 1] == x';
    CutSuffix(name, t);
    CutSuffix(name', t');
  }

  predicate HasRegistry(u: Url) { u.scheme == "https" && u.host != "" }

  lemma OnlyTagsEndInTags(name: string, t: string)
    requires IsPullSuffix(t) && HasSuffix(name + t, TAGS)
    ensures t == TAGS
  {
    var e := name + t;
    var m := e[..|e| - |TAGS|];
    assert e == m + TAGS;
    ReadingIsUnique(name, t, m, TAGS);
  }

  lemma DeriveFromPull(host: Bytes, name: Bytes, t: string, e: Bytes)
    requires IsPullSuffix(t) && e == name + t
    ensures DeriveFrom(host, e) == Repository(host, name)
  {
    CutSuffix(name, t);
    if HasSuffix(e, TAGS) {
      OnlyTagsEndInTags(name, t);
    } else {
      var kind, x := SuffixParts(name, t);
      SuffixLiterals(x);
      var parts := Split(e, '/');
      assert parts[|parts| - 2] == kind && parts[|parts| - 1] == x;
    }
  }

  lemma PullEndpointsAreDerived(u: Url, name: Bytes, t: string)
    requires HasRegistry(u) && IsPullEndpoint(u.path, name, t)
    ensures DeriveRepository(Some(u)) == Repository(u.host, name)
  {
    var e := u.path[|V2|..];
    Regroup(V2, name, t);
    assert e == name + t;
    DeriveFromPull(u.host, name, t, e);
    VersionTestIsRedundant(u);
  }

  lemma DeriveFromOnlyPull(host: Bytes, e: Bytes) returns (t: string)
    requires DeriveFrom(host, e).Repository?
    ensures IsPullSuffix(t) && e == DeriveFrom(host, e).repository + t && DeriveFrom(host, e).registry == host
  {
    if HasSuffix(e, TAGS) {
      t := TAGS;
    } else {
      var parts := Split(e, '/');
      var name := UnsplitNamed(e);
      var kind, x := parts[|parts| - 2], parts[|parts| - 1];
      SuffixOfName(name, kind, x);
      SuffixLiterals(x);
      t := Suffix(kind, x);
      CutSuffix(name, t);
    }
  }

  lemma DerivedIsPullEndpoint(u: Url) returns (t: string)
    requires DeriveRepository(Some(u)).Repository?
    ensures HasRegistry(u) && DeriveRepository(Some(u)).registry == u.host
    ensures IsPullEndpoint(u.path, DeriveRepository(Some(u)).repository, t)
  {
    var e := u.path[|V2|..];
    assert u.path == V2 + e;
    t := DeriveFromOnlyPull(u.host, e);
    Regroup(V2, DeriveRepository(Some(u)).repository, t);
  }

  /** What is derived from any URI: an error exactly without https and a host; a repository exactly from the
      pull endpoints of that host, and it is the name in the endpoint; every other path is ignored. */
  lemma DeriveRepositoryIff(parsed: Option<Url>, registry: Bytes, name: Bytes)
    ensures DeriveRepository(parsed) == Invalid <==> parsed.None? || parsed.value.scheme != "https" || parsed.value.host == ""
    ensures DeriveRepository(parsed) == Repository(registry, name) <==>
              && parsed.Some? && HasRegistry(parsed.value) && parsed.value.host == registry
              && exists t :: IsPullEndpoint(parsed.value.path, name, t)
    ensures DeriveRepository(parsed) == Ignored <==>
              && parsed.Some? && HasRegistry(parsed.value)
              && forall n: Bytes, t :: !IsPullEndpoint(parsed.value.path, n, t)
  {
    if DeriveRepository(parsed).Repository? {
      var t := DerivedIsPullEndpoint(parsed.value);
    }
    if parsed.Some? && HasRegistry(parsed.value) {
      var u := parsed.value;
      forall n: Bytes, t | IsPullEndpoint(u.path, n, t) ensures DeriveRepository(Some(u)) == Repository(u.host, n) {
        PullEndpointsAreDerived(u, n, t);
      }
    }
  }

  /******* Escaping *******/

  datatype Mode = Host | Query

  predicate Unreserved(c: char) {
    'a' <= c <= 'z' || 'A' <= c <= 'Z' || '0' <= c <= '9' || c in "-_.~"
  }

  /** The bytes `net/url` leaves alone in a host and in a query component. */
  predicate Kept(mode: Mode, c: char) { Unreserved(c) || (mode.Host? && c in "!$&'()*+,;=:[]<>\"") }

  const HEX := "0123456789ABCDEF"

  function EscapeByte(mode: Mode, c: Byte): string {
    if mode.Query? && c == ' ' then "+"
    else if Kept(mode, c) then [c]
    else ['%', HEX[c as int / 16], HEX[c as int % 16]]
  }

  function Escape(mode: Mode, s: Bytes): string {
    if s == [] then "" else EscapeByte(mode, s[0]) + Escape(mode, s[1..])
  }

  function Nibble(c: char): nat {
    if '0' <= c <= '9' then c as int - '0' as int
    else if 'A' <= c <= 'F' then c as int - 'A' as int + 10
    else 0
  }

  /** Reads escaped text back. */
  function Unescape(mode: Mode, s: string): string
    decreases |s|
  {
    if s == "" then ""
    else if s[0] == '%' && |s| >= 3 then [(16 * Nibble(s[1]) + Nibble(s[2])) as char] + Unescape(mode, s[3..])
    else if s[0] == '+' && mode.Query? then " " + Unescape(mode, s[1..])
    else [s[0]] + Unescape(mode, s[1..])
  }

  lemma HexRoundTrip(n: nat)
    requires n < 16
    ensures Nibble(HEX[n]) == n && HEX[n] != '?'
  {
  }

  lemma UnescapePercent(mode: Mode, n: nat, rest: string)
    requires n < 256
    ensures Unescape(mode, ['%', HEX[n / 16], HEX[n % 16]] + rest) == [n as char] + Unescape(mode, rest)
  {
    var s := ['%', HEX[n / 16], HEX[n % 16]] + rest;
    assert s[3..] == rest;
    HexRoundTrip(n / 16);
    HexRoundTrip(n % 16);
  }

  lemma UnescapePlain(mode: Mode, c: char, rest: string)
    requires c != '%' && !(mode.Query? && c == '+')
    ensures Unescape(mode, [c] + rest) == [c] + Unescape(mode, rest)
  {
    assert ([c] + rest)[1..] == rest;
  }

  lemma KeptIsPlain(mode: Mode, c: char)
    requires Kept(mode, c)
    ensures c != '%' && !(mode.Query? && c == '+') && c != '?'
  {
  }

  lemma UnescapeByte(mode: Mode, c: Byte, rest: string)
    ensures Unescape(mode, EscapeByte(mode, c) + rest) == [c] + Unescape(mode, rest)
  {
    if mode.Query? && c == ' ' {
      assert ("+" + rest)[1..] == rest;
    } else if Kept(mode, c) {
      KeptIsPlain(mode, c);
      UnescapePlain(mode, c, rest);
    } else {
      UnescapePercent(mode, c as int, rest);
    }
  }

  lemma {:induction false} UnescapeEscape(mode: Mode, s: Bytes)
    ensures Unescape(mode, Escape(mode, s)) == s
  {
    if s != [] {
      UnescapeByte(mode, s[0], Escape(mode, s[1..]));
      UnescapeEscape(mode, s[1..]);
      assert [s[0]] + s[1..] == s;
    }
  }

  /** Letters, digits and marks that need no escape, and what a host may hold besides them. */
  predicate PlainByte(mode: Mode, c: char) {
    || 'a' <= c <= 'z' || 'A' <= c <= 'Z' || '0' <= c <= '9' || c == '-' || c == '_' || c == '.' || c == '~'
    || (mode == Host && c in "!$&'()*+,;=:[]<>\"")
  }

  predicate Plain(mode: Mode, s: Bytes) { forall i :: 0 <= i < |s| ==> PlainByte(mode, s[i]) }

  lemma EscapeByteKeepsIff(mode: Mode, c: Byte)
    ensures EscapeByte(mode, c) == [c] <==> PlainByte(mode, c)
    ensures |EscapeByte(mode, c)| == 1 || |EscapeByte(mode, c)| == 3
  {
  }

  lemma {:induction false} EscapeOnlyGrows(mode: Mode, s: Bytes)
    ensures |Escape(mode, s)| >= |s|
  {
    if s != [] {
      EscapeByteKeepsIff(mode, s[0]);
      EscapeOnlyGrows(mode, s[1..]);
    }
  }

  lemma Prepend(a: string, rest: string, c: char, tail: string)
    requires |a| == 1 || (|a| == 3 && |rest| >= |tail|)
    ensures a + rest == [c] + tail <==> a == [c] && rest == tail
  {
    if |a| == 1 {
      assert (a + rest)[0] == a[0] && (a + rest)[1..] == rest;
      assert ([c] + tail)[0] == c && ([c] + tail)[1..] == tail;
    } else {
      assert |a + rest| > |[c] + tail|;
    }
  }

  lemma EscapeCons(mode: Mode, s: Bytes)
    requires s != []
    ensures Escape(mode, s) == s <==> PlainByte(mode, s[0]) && Escape(mode, s[1..]) == s[1..]
  {
    EscapeByteKeepsIff(mode, s[0]);
    EscapeOnlyGrows(mode, s[1..]);
    Prepend(EscapeByte(mode, s[0]), Escape(mode, s[1..]), s[0], s[1..]);
    assert s == [s[0]] + s[1..];
  }

  /** Exactly the plain text is left as it is; everything else is replaced. */
  lemma {:induction false} EscapeKeepsIff(mode: Mode, s: Bytes)
    ensures Escape(mode, s) == s <==> Plain(mode, s)
  {
    if s != [] {
      EscapeKeepsIff(mode, s[1..]);
      EscapeCons(mode, s);
      PlainCons(mode, s);
    }
  }

  lemma PlainCons(mode: Mode, s: Bytes)
    requires s != []
    ensures Plain(mode, s) <==> PlainByte(mode, s[0]) && Plain(mode, s[1..])
  {
    assert forall i :: 1 <= i < |s| ==> s[i] == s[1..][i - 1];
  }

  lemma {:induction false} EscapedHasNoQuestionMark(mode: Mode, s: Bytes)
    ensures '?' !in Escape(mode, s)
  {
    if s != [] {
      EscapedHasNoQuestionMark(mode, s[1..]);
      HexRoundTrip(s[0] as int / 16);
      HexRoundTrip(s[0] as int % 16);
    }
  }

  /******* Cache keys *******/

  const KEY_SCHEME := "oci-registry-v2-auth://"
  const KEY_QUERY := "?action=pull&repository="

  function KeyFor(registry: Bytes, repository: Bytes): string {
    KEY_SCHEME + Escape(Host, registry) + KEY_QUERY + Escape(Query, repository)
  }

  /** Empty: not cached. */
  function CacheKey(parsed: Option<Url>): string {
    match DeriveRepository(parsed)
    case Repository(registry, repository) => KeyFor(registry, repository)
    case _ => ""
  }

  function Scope(repository: Bytes): string { "repository:" + repository + ":pull" }

  /** A scope asks for pull access to exactly one repository. */
  lemma ScopeNamesRepository(repository: Bytes, other: Bytes)
    ensures "repository:" <= Scope(repository) && HasSuffix(Scope(repository), ":pull")
    ensures Scope(repository)[11..|Scope(repository)| - 5] == repository
    ensures Scope(repository) == Scope(other) <==> repository == other
  {
    assert Scope(other)[11..|Scope(other)| - 5] == other;
  }

  /** Reads registry and repository back from a key. */
  function ReadKey(key: string): (string, string)
    requires |KEY_SCHEME| <= |key|
  {
    var rest := key[|KEY_SCHEME|..];
    var n := IndexOf(rest, '?');
    (Unescape(Host, rest[..n]),
     if n + |KEY_QUERY| <= |rest| then Unescape(Query, rest[n + |KEY_QUERY|..]) else "")
  }

  lemma ReadKeyOfKeyFor(registry: Bytes, repository: Bytes)
    ensures ReadKey(KeyFor(registry, repository)) == (registry, repository)
  {
    var h, q := Escape(Host, registry), Escape(Query, repository);
    var rest := h + KEY_QUERY + q;
    assert KeyFor(registry, repository)[|KEY_SCHEME|..] == rest;
    EscapedHasNoQuestionMark(Host, registry);
    assert rest[|h|] == '?';
    IndexOfIsUnique(rest, '?', |h|);
    assert rest[..|h|] == h && rest[|h| + |KEY_QUERY|..] == q;
    UnescapeEscape(Host, registry);
    UnescapeEscape(Query, repository);
  }

  /** A key as it is written for names that need no escape. */
  lemma KeyOfPlainNames(registry: Bytes, repository: Bytes)
    requires Plain(Host, registry) && Plain(Query, repository)
    ensures KeyFor(registry, repository) == "oci-registry-v2-auth://" + registry + "?action=pull&repository=" + repository
  {
    EscapeKeepsIff(Host, registry);
    EscapeKeepsIff(Query, repository);
  }

  /** Two URIs have the same non-empty cache key exactly when they name the same registry and
      repository. */
  lemma CacheKeysAreSound(u: Option<Url>, v: Option<Url>)
    requires CacheKey(u) != ""
    ensures CacheKey(u) == CacheKey(v) <==>
              DeriveRepository(u).Repository? && DeriveRepository(u) == DeriveRepository(v)
  {
    var d, e := DeriveRepository(u), DeriveRepository(v);
    if CacheKey(u) == CacheKey(v) {
      ReadKeyOfKeyFor(d.registry, d.repository);
      ReadKeyOfKeyFor(e.registry, e.repository);
    }
  }
}
