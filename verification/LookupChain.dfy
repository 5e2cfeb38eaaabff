/** The ordered search for a secret in a chain of sources. */
module LookupChain {
  import opened Wrappers

  /******* Sources *******/

  datatype Source =
    | Env(source: string, name: string, binding: string)
    | Keyring(source: string, service: string, binding: string)
    | Static(source: string, value: string, binding: string)
    | Google(source: string, tokenType: string, scopes: seq<string>, audience: string, binding: string)

  function KindName(s: Source): string {
    match s
    case Env(_, _, _) => "env"
    case Keyring(_, _, _) => "keyring"
    case Static(_, _, _) => "static"
    case Google(_, _, _, _, _) => "google"
  }

  function Canonical(s: Source): Source {
    s.(source := KindName(s), binding := if s.binding == "" then "default" else s.binding)
  }

  /** What a source makes of a binding: a value, not found, or some other error. */
  datatype Outcome = Found(value: string) | Missing | Broken(error: string)

  /** The environment variables, the system keyring and the Google credentials at the time of a lookup. */
  datatype World = World(env: map<string, string>, keyring: string -> Outcome,
                         google: (string, seq<string>, string) -> Result<string, string>)

  function LookupIn(s: Source, w: World, binding: string): Outcome {
    if s.binding != binding then Missing else
      match s
      case Env(_, name, _) => if name in w.env then Found(w.env[name]) else Missing
      case Keyring(_, service, _) => w.keyring(service)
      case Static(_, value, _) => Found(value)
      case Google(_, tokenType, scopes, audience, _) =>
        match w.google(tokenType, scopes, audience)
        case Ok(token) => Found(token)
        case Err(e) => Broken(e)
  }

  /******* Configuration entries *******/

  datatype Json = Text(text: string) | List(items: seq<string>) | Null | OtherJson

  /** The JSON of an entry: an object, `null`, or something that is neither. */
  datatype Raw = Object(fields: map<string, Json>) | NullRaw | Garbage

  datatype ConfigEntry = ConfigEntry(source: string, raw: Raw)

  function TextField(fields: map<string, Json>, name: string): Option<string> {
    if name !in fields || fields[name].Null? then Some("")
    else if fields[name].Text? then Some(fields[name].text)
    else None
  }

  function ListField(fields: map<string, Json>, name: string): Option<seq<string>> {
    if name !in fields || fields[name].Null? then Some([])
    else if fields[name].List? then Some(fields[name].items)
    else None
  }

  predicate OnlyFields(fields: map<string, Json>, names: set<string>) { fields.Keys <= names }

  /** Strict decoding: unknown fields are an error. */
  function Decode(kind: string, fields: map<string, Json>): Option<Source> {
    var source, binding := TextField(fields, "source"), TextField(fields, "binding");
    var name, service := TextField(fields, "name"), TextField(fields, "service");
    if source.None? || binding.None? then None
    else if kind == "env" then
      if OnlyFields(fields, {"source", "name", "binding"}) && name.Some?
      then Some(Env(source.value, name.value, binding.value)) else None
    else if kind == "keyring" then
      if OnlyFields(fields, {"source", "service", "binding"}) && service.Some?
      then Some(Keyring(source.value, service.value, binding.value)) else None
    else if kind == "static" then
      if OnlyFields(fields, {"source", "name", "binding"}) && name.Some?
      then Some(Static(source.value, name.value, binding.value)) else None
    else if kind == "google" then
      var tokenType, audience := TextField(fields, "token_type"), TextField(fields, "audience");
      var scopes := ListField(fields, "scopes");
      if OnlyFields(fields, {"source", "token_type", "scopes", "audience", "binding"})
         && tokenType.Some? && audience.Some? && scopes.Some?
      then Some(Google(source.value, tokenType.value, scopes.value, audience.value, binding.value)) else None
    else None
  }

  function SourceFor(e: ConfigEntry): Option<Source> {
    var fields := if e.raw.Object? then e.raw.fields else map[];
    match (if e.raw.Garbage? then None else Decode(e.source, fields))
    case None => None
    case Some(s) => Some(Canonical(s))
  }

  function Omitted(name: string, text: string): map<string, Json> {
    if text == "" then map[] else map[name := Text(text)]
  }

  function Encode(s: Source): Raw {
    var common := map["source" := Text(s.source)] + Omitted("binding", s.binding);
    Object(match s
           case Env(_, name, _) => common["name" := Text(name)]
           case Keyring(_, service, _) => common["service" := Text(service)]
           case Static(_, value, _) => common["name" := Text(value)]
           case Google(_, tokenType, scopes, audience, _) =>
             common + Omitted("token_type", tokenType) + Omitted("audience", audience)
             + if scopes == [] then map[] else map["scopes" := List(scopes)])
  }

  function DefaultEntry(s: Source): ConfigEntry { ConfigEntry(Canonical(s).source, Encode(Canonical(s))) }

  /** Built-in chains: canonicalised and marshalled one by one. */
  method Default(sources: seq<Source>) returns (chain: seq<ConfigEntry>)
    ensures |chain| == |sources|
    ensures forall i :: 0 <= i < |chain| ==> SourceFor(chain[i]) == Some(Canonical(sources[i]))
  {
    chain := [];
    for i := 0 to |sources|
      invariant |chain| == i
      invariant forall j :: 0 <= j < i ==> SourceFor(chain[j]) == Some(Canonical(sources[j]))
    {
      DefaultDecodesBack(sources[i]);
      chain := chain + [DefaultEntry(sources[i])];
    }
  }

  lemma CanonicalIsIdempotent(s: Source)
    ensures Canonical(Canonical(s)) == Canonical(s)
  {
  }

  /** Decoding what `Encode` produced, for a source that names a binding. */
  lemma DecodeEncoded(c: Source)
    requires c.binding != ""
    ensures Decode(KindName(c), Encode(c).fields) == Some(c)
  {
    var fields := Encode(c).fields;
    assert TextField(fields, "source") == Some(c.source) && TextField(fields, "binding") == Some(c.binding);
    if c.Google? { DecodeEncodedGoogle(c); }
  }

  lemma DecodeEncodedGoogle(c: Source)
    requires c.Google? && c.binding != ""
    ensures Decode("google", Encode(c).fields) == Some(c)
  {
    var fields := Encode(c).fields;
    assert TextField(fields, "token_type") == Some(c.tokenType);
    assert TextField(fields, "audience") == Some(c.audience);
    assert ListField(fields, "scopes") == Some(c.scopes);
  }

  /** An entry built from a source decodes back to the canonical source. */
  lemma DefaultDecodesBack(s: Source)
    ensures SourceFor(DefaultEntry(s)) == Some(Canonical(s))
  {
    DecodeEncoded(Canonical(s));
    CanonicalIsIdempotent(s);
  }

  /******* Looking up a binding *******/

  datatype Answer =
    | Value(value: string)
    | Undecodable                       // an entry could not be decoded
    | NotFound
    | Failed(errors: seq<string>)       // sources failed other than by not finding the value
    | NoSources

  /** What an entry answers; `None` if it cannot be decoded. */
  function Ask(e: ConfigEntry, w: World, binding: string): Option<Outcome> {
    match SourceFor(e)
    case None => None
    case Some(s) => Some(LookupIn(s, w, binding))
  }

  function Asked(chain: seq<ConfigEntry>, w: World, binding: string): (asked: seq<Option<Outcome>>)
    ensures |asked| == |chain| && forall i :: 0 <= i < |chain| ==> asked[i] == Ask(chain[i], w, binding)
  {
    seq(|chain|, i requires 0 <= i < |chain| => Ask(chain[i], w, binding))
  }

  /******* Entries as they are written *******/

  /** The fields an entry of each kind may have. */
  const FIELDS: map<string, set<string>> :=
    map["env" := {"source", "name", "binding"},
        "keyring" := {"source", "service", "binding"},
        "static" := {"source", "name", "binding"},
        "google" := {"source", "token_type", "scopes", "audience", "binding"}]

  function FieldsOf(e: ConfigEntry): map<string, Json> { if e.raw.Object? then e.raw.fields else map[] }

  /** A known kind with known fields only, the scopes a list, the others strings, all of them optional. */
  predicate WellFormed(e: ConfigEntry) {
    && e.source in FIELDS && !e.raw.Garbage?
    && forall f :: f in FieldsOf(e) ==>
         && f in FIELDS[e.source]
         && (FieldsOf(e)[f].Null? || (if f == "scopes" then FieldsOf(e)[f].List? else FieldsOf(e)[f].Text?))
  }

  /** A string field, empty if absent. */
  function Str(e: ConfigEntry, f: string): string {
    if f in FieldsOf(e) && FieldsOf(e)[f].Text? then FieldsOf(e)[f].text else ""
  }

  predicate BoundTo(e: ConfigEntry, binding: string) {
    Str(e, "binding") == binding != "" || (Str(e, "binding") == "" && binding == "default")
  }

  function Scopes(e: ConfigEntry): seq<string> {
    if "scopes" in FieldsOf(e) && FieldsOf(e)["scopes"].List? then FieldsOf(e)["scopes"].items else []
  }

  /** What a well-formed entry has for a binding, read off its fields. */
  function Reading(e: ConfigEntry, w: World, binding: string): (o: Outcome) {
    if !BoundTo(e, binding) then Missing
    else if e.source == "env" && Str(e, "name") in w.env then Found(w.env[Str(e, "name")])
    else if e.source == "keyring" then w.keyring(Str(e, "service"))
    else if e.source == "static" then Found(Str(e, "name"))
    else if e.source == "google" then
      match w.google(Str(e, "token_type"), Scopes(e), Str(e, "audience"))
      case Ok(token) => Found(token)
      case Err(error) => Broken(error)
    else Missing
  }

  lemma TextFieldMeans(e: ConfigEntry, f: string)
    ensures TextField(FieldsOf(e), f).Some? <==>
              (f in FieldsOf(e) ==> FieldsOf(e)[f].Null? || FieldsOf(e)[f].Text?)
    ensures TextField(FieldsOf(e), f).Some? ==> TextField(FieldsOf(e), f).value == Str(e, f)
  {
  }

  lemma ListFieldMeans(e: ConfigEntry)
    ensures ListField(FieldsOf(e), "scopes").Some? <==>
              ("scopes" in FieldsOf(e) ==> FieldsOf(e)["scopes"].Null? || FieldsOf(e)["scopes"].List?)
    ensures ListField(FieldsOf(e), "scopes").Some? ==> ListField(FieldsOf(e), "scopes").value == Scopes(e)
  {
  }

  function BindingOf(e: ConfigEntry): string { if Str(e, "binding") == "" then "default" else Str(e, "binding") }

  /** The source a well-formed entry describes. */
  function Described(e: ConfigEntry): Source {
    if e.source == "env" then Env("env", Str(e, "name"), BindingOf(e))
    else if e.source == "keyring" then Keyring("keyring", Str(e, "service"), BindingOf(e))
    else if e.source == "static" then Static("static", Str(e, "name"), BindingOf(e))
    else Google("google", Str(e, "token_type"), Scopes(e), Str(e, "audience"), BindingOf(e))
  }

  ghost predicate DecodesAsDescribed(e: ConfigEntry) {
    SourceFor(e) == if WellFormed(e) then Some(Described(e)) else None
  }

  lemma EnvDecodes(e: ConfigEntry)
    requires e.source == "env"
    ensures DecodesAsDescribed(e)
  {
    TextFieldMeans(e, "source");
    TextFieldMeans(e, "binding");
    TextFieldMeans(e, "name");
  }

  lemma KeyringDecodes(e: ConfigEntry)
    requires e.source == "keyring"
    ensures DecodesAsDescribed(e)
  {
    TextFieldMeans(e, "source");
    TextFieldMeans(e, "binding");
    TextFieldMeans(e, "service");
  }

  lemma StaticDecodes(e: ConfigEntry)
    requires e.source == "static"
    ensures DecodesAsDescribed(e)
  {
    TextFieldMeans(e, "source");
    TextFieldMeans(e, "binding");
    TextFieldMeans(e, "name");
  }

  lemma GoogleDecodes(e: ConfigEntry)
    requires e.source == "google"
    ensures DecodesAsDescribed(e)
  {
    TextFieldMeans(e, "source");
    TextFieldMeans(e, "binding");
    TextFieldMeans(e, "token_type");
    TextFieldMeans(e, "audience");
    ListFieldMeans(e);
  }

  lemma OtherKindsFail(e: ConfigEntry)
    requires e.source !in FIELDS
    ensures DecodesAsDescribed(e)
  {
  }

  /** What the strict decoder makes of an entry. */
  lemma SourceForMeans(e: ConfigEntry)
    ensures DecodesAsDescribed(e)
  {
    if e.source == "env" { EnvDecodes(e); }
    else if e.source == "keyring" { KeyringDecodes(e); }
    else if e.source == "static" { StaticDecodes(e); }
    else if e.source == "google" { GoogleDecodes(e); }
    else { OtherKindsFail(e); }
  }

  /** What an entry answers, read off its fields. */
  lemma AskMeans(e: ConfigEntry, w: World, binding: string)
    ensures Ask(e, w, binding) == if WellFormed(e) then Some(Reading(e, w, binding)) else None
  {
    SourceForMeans(e);
  }

  predicate FirstDecisive(chain: seq<ConfigEntry>, w: World, binding: string, i: nat) {
    && i < |chain| && (!WellFormed(chain[i]) || Reading(chain[i], w, binding).Found?)
    && forall j :: 0 <= j < i ==> WellFormed(chain[j]) && !Reading(chain[j], w, binding).Found?
  }

  /** The answer, by the entries as they are written: that of the first decisive one, and without one not
      found exactly when nothing failed. */
  ghost predicate AnswersAsWritten(chain: seq<ConfigEntry>, w: World, binding: string, a: Answer) {
    && (a == NoSources <==> chain == [])
    && (forall i: nat :: FirstDecisive(chain, w, binding, i) ==>
          a == if WellFormed(chain[i]) then Value(Reading(chain[i], w, binding).value) else Undecodable)
    && (a.Value? || a.Undecodable? <==> exists i: nat :: FirstDecisive(chain, w, binding, i))
    && (chain != [] ==> (a == NotFound <==>
          forall i :: 0 <= i < |chain| ==> WellFormed(chain[i]) && Reading(chain[i], w, binding) == Missing))
  }

  /** The loop over the entries, with the errors so far. */
  function Decide(asked: seq<Option<Outcome>>, errors: seq<string>): Answer {
    if asked == [] then (if errors == [] then NotFound else Failed(errors)) else
      match asked[0]
      case None => Undecodable
      case Some(Found(v)) => Value(v)
      case Some(Missing) => Decide(asked[1..], errors)
      case Some(Broken(e)) => Decide(asked[1..], errors + [e])
  }

  function Lookup(chain: seq<ConfigEntry>, w: World, binding: string): Answer {
    if chain == [] then NoSources else Decide(Asked(chain, w, binding), [])
  }

  class Chain {
    const config: seq<ConfigEntry>

    constructor (config: seq<ConfigEntry>)
      ensures this.config == config
    {
      this.config := config;
    }

    /** The first decisive entry gives the answer; without one all failures are reported. */
    method Find(w: World, binding: string) returns (a: Answer)
      ensures a == Lookup(config, w, binding)
      ensures AnswersAsWritten(config, w, binding, a)
    {
      a := Search(w, binding);
      FindMeans(config, w, binding);
    }

    method Search(w: World, binding: string) returns (a: Answer)
      ensures a == Lookup(config, w, binding)
    {
      if |config| == 0 { return NoSources; }
      var errors := [];
      ghost var asked := Asked(config, w, binding);
      for i := 0 to |config|
        invariant Decide(asked[i..], errors) == Decide(asked, [])
      {
        assert asked[i..][1..] == asked[i + 1..];
        var source := SourceFor(config[i]);
        if source.None? { return Undecodable; }
        var outcome := LookupIn(source.value, w, binding);
        if outcome.Found? { return Value(outcome.value); }
        if outcome.Missing? { continue; }
        errors := errors + [outcome.error];
      }
      return if |errors| > 0 then Failed(errors) else NotFound;
    }
  }

  /******* Laws *******/

  /** An undecodable or successful entry ends the search. */
  predicate Decisive(o: Option<Outcome>) { o.None? || o.value.Found? }

  predicate Fails(o: Option<Outcome>) { o.Some? && o.value.Broken? }

  lemma {:induction false} FirstDecides(asked: seq<Option<Outcome>>, errors: seq<string>, i: nat)
    requires i < |asked| && Decisive(asked[i]) && forall j :: 0 <= j < i ==> !Decisive(asked[j])
    ensures Decide(asked, errors) == if asked[i].None? then Undecodable else Value(asked[i].value.value)
  {
    if i > 0 {
      assert !Decisive(asked[0]);
      FirstDecides(asked[1..], if asked[0].value.Broken? then errors + [asked[0].value.error] else errors, i - 1);
    }
  }

  /** The answer is that of the first entry that is undecodable or successful. */
  lemma FirstDecisiveDecides(chain: seq<ConfigEntry>, w: World, binding: string, i: nat)
    requires i < |chain| && Decisive(Ask(chain[i], w, binding))
    requires forall j :: 0 <= j < i ==> !Decisive(Ask(chain[j], w, binding))
    ensures Lookup(chain, w, binding) ==
              match Ask(chain[i], w, binding) { case None => Undecodable case Some(o) => Value(o.value) }
  {
    FirstDecides(Asked(chain, w, binding), [], i);
  }

  /** The errors of the failing entries, in order. */
  function Errors(asked: seq<Option<Outcome>>): seq<string> {
    if asked == [] then [] else (if Fails(asked[0]) then [asked[0].value.error] else []) + Errors(asked[1..])
  }

  lemma {:induction false} NothingDecisive(asked: seq<Option<Outcome>>, errors: seq<string>)
    requires forall j :: 0 <= j < |asked| ==> !Decisive(asked[j])
    ensures var all := errors + Errors(asked);
      Decide(asked, errors) == if all == [] then NotFound else Failed(all)
  {
    if asked == [] {
      assert errors + [] == errors;
    } else {
      assert !Decisive(asked[0]);
      var errors' := if Fails(asked[0]) then errors + [asked[0].value.error] else errors;
      NothingDecisive(asked[1..], errors');
      assert errors + Errors(asked) == errors' + Errors(asked[1..]);
    }
  }

  lemma {:induction false} NoErrorsIff(asked: seq<Option<Outcome>>)
    ensures Errors(asked) == [] <==> forall j :: 0 <= j < |asked| ==> !Fails(asked[j])
  {
    if asked != [] {
      NoErrorsIff(asked[1..]);
      assert forall j :: 1 <= j < |asked| ==> asked[j] == asked[1..][j - 1];
      assert forall j :: 0 <= j < |asked[1..]| ==> asked[1..][j] == asked[j + 1];
    }
  }

  /** With no decisive entry the value is not found exactly when no source failed otherwise; else all the
      failures are reported in order. */
  lemma NotFoundIff(chain: seq<ConfigEntry>, w: World, binding: string)
    requires chain != [] && forall j :: 0 <= j < |chain| ==> !Decisive(Ask(chain[j], w, binding))
    ensures Lookup(chain, w, binding) == NotFound <==>
              forall j :: 0 <= j < |chain| ==> !Fails(Ask(chain[j], w, binding))
    ensures Lookup(chain, w, binding) == NotFound
            || Lookup(chain, w, binding) == Failed(Errors(Asked(chain, w, binding)))
  {
    var asked := Asked(chain, w, binding);
    NothingDecisive(asked, []);
    NoErrorsIff(asked);
    assert [] + Errors(asked) == Errors(asked);
    assert forall j :: 0 <= j < |chain| ==> asked[j] == Ask(chain[j], w, binding);
  }

  /** How the answers of two chains combine when one follows the other. */
  function Combine(a: Answer, b: Answer): Answer {
    match a
    case NotFound => b
    case Failed(errors) => (
      match b
      case NotFound => a
      case Failed(more) => Failed(errors + more)
      case _ => b)
    case _ => a
  }

  function SoFar(errors: seq<string>): Answer { if errors == [] then NotFound else Failed(errors) }

  lemma {:induction false} DecideExtends(asked: seq<Option<Outcome>>, errors: seq<string>)
    ensures Decide(asked, errors) == Combine(SoFar(errors), Decide(asked, []))
  {
    if asked != [] && !Decisive(asked[0]) {
      if Fails(asked[0]) {
        var e := asked[0].value.error;
        DecideExtends(asked[1..], errors + [e]);
        DecideExtends(asked[1..], [e]);
        assert [] + [e] == [e];
        var rest := Decide(asked[1..], []);
        if rest.Failed? { assert errors + [e] + rest.errors == errors + ([e] + rest.errors); }
      } else {
        DecideExtends(asked[1..], errors);
      }
    }
  }

  lemma {:induction false} DecideConcat(a: seq<Option<Outcome>>, b: seq<Option<Outcome>>, errors: seq<string>)
    ensures Decide(a + b, errors) == Combine(Decide(a, errors), Decide(b, []))
  {
    if a == [] {
      assert a + b == b;
      DecideExtends(b, errors);
    } else {
      assert (a + b)[0] == a[0] && (a + b)[1..] == a[1..] + b;
      if !Decisive(a[0]) {
        DecideConcat(a[1..], b, if Fails(a[0]) then errors + [a[0].value.error] else errors);
      }
    }
  }

  lemma AskedConcat(a: seq<ConfigEntry>, b: seq<ConfigEntry>, w: World, binding: string)
    ensures Asked(a + b, w, binding) == Asked(a, w, binding) + Asked(b, w, binding)
  {
  }

  /** The search by the entries as they are written. */
  lemma FindMeans(chain: seq<ConfigEntry>, w: World, binding: string)
    ensures AnswersAsWritten(chain, w, binding, Lookup(chain, w, binding))
  {
    forall i | 0 <= i < |chain|
      ensures Ask(chain[i], w, binding) == if WellFormed(chain[i]) then Some(Reading(chain[i], w, binding)) else None
    {
      AskMeans(chain[i], w, binding);
    }
    forall i: nat | FirstDecisive(chain, w, binding, i)
      ensures Lookup(chain, w, binding) ==
                if WellFormed(chain[i]) then Value(Reading(chain[i], w, binding).value) else Undecodable
    {
      FirstDecisiveDecides(chain, w, binding, i);
    }
    if i :| 0 <= i < |chain| && Decisive(Ask(chain[i], w, binding)) {
      var first := LeastDecisive(chain, w, binding, i);
      assert FirstDecisive(chain, w, binding, first);
    } else if chain != [] {
      NotFoundIff(chain, w, binding);
    }
  }

  lemma {:induction false} LeastDecisive(chain: seq<ConfigEntry>, w: World, binding: string, i: nat) returns (first: nat)
    requires i < |chain| && Decisive(Ask(chain[i], w, binding))
    ensures first < |chain| && Decisive(Ask(chain[first], w, binding))
    ensures forall j :: 0 <= j < first ==> !Decisive(Ask(chain[j], w, binding))
    decreases i
  {
    if j: nat :| j < i && Decisive(Ask(chain[j], w, binding)) {
      first := LeastDecisive(chain, w, binding, j);
    } else {
      first := i;
    }
  }

  /** The concatenation law. */
  lemma LookupConcat(a: seq<ConfigEntry>, b: seq<ConfigEntry>, w: World, binding: string)
    requires a != [] && b != []
    ensures Lookup(a + b, w, binding) == Combine(Lookup(a, w, binding), Lookup(b, w, binding))
  {
    AskedConcat(a, b, w, binding);
    DecideConcat(Asked(a, w, binding), Asked(b, w, binding), []);
  }

  /** A decodable entry for another binding. */
  predicate Irrelevant(e: ConfigEntry, binding: string) {
    SourceFor(e).Some? && SourceFor(e).value.binding != binding
  }

  lemma {:induction false} AllMissing(asked: seq<Option<Outcome>>)
    requires forall i :: 0 <= i < |asked| ==> asked[i] == Some(Missing)
    ensures Decide(asked, []) == NotFound
  {
    if asked != [] { AllMissing(asked[1..]); }
  }

  /** Inserting or deleting decodable entries of other bindings changes nothing, as long as the chain
      stays non-empty. */
  lemma IrrelevantEntriesDoNotMatter(a: seq<ConfigEntry>, es: seq<ConfigEntry>, b: seq<ConfigEntry>, w: World, binding: string)
    requires a + b != [] && forall i :: 0 <= i < |es| ==> Irrelevant(es[i], binding)
    ensures Lookup(a + es + b, w, binding) == Lookup(a + b, w, binding)
  {
    var x, y, z := Asked(a, w, binding), Asked(es, w, binding), Asked(b, w, binding);
    AskedConcat(a + es, b, w, binding);
    AskedConcat(a, es, w, binding);
    AskedConcat(a, b, w, binding);
    DecideConcat(x + y, z, []);
    DecideConcat(x, y, []);
    DecideConcat(x, z, []);
    forall i | 0 <= i < |es| ensures y[i] == Some(Missing) { assert Irrelevant(es[i], binding); }
    AllMissing(y);
  }
}
