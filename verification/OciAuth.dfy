/** Deriving the credentials for a registry, and what remembering the docker entry does to later calls. */
module OciAuth {
  import opened Wrappers
  import LookupChain

  datatype AuthConfig = AuthConfig(username: string, password: string, auth: string,
                                   identityToken: string, registryToken: string, exchange: string)

  const EMPTY := AuthConfig("", "", "", "", "", "")

  /** An entry of the docker configuration; it never names an exchange method. */
  datatype DockerEntry = DockerEntry(username: string, password: string, auth: string,
                                     identityToken: string, registryToken: string)

  function Raw(d: DockerEntry): AuthConfig {
    AuthConfig(d.username, d.password, d.auth, d.identityToken, d.registryToken, "")
  }

  /** A configured authenticator, or the closure over a docker entry found earlier. */
  datatype Authenticator = Custom(run: (string, string, string) -> Result<AuthConfig, string>)
                         | Remembered(entry: DockerEntry)

  function Authenticate(a: Authenticator, registry: string, service: string, realm: string): Result<AuthConfig, string> {
    match a
    case Custom(run) => run(registry, service, realm)
    case Remembered(d) => Ok(Raw(d))
  }

  datatype Fragment = Fragment(parseDocker: bool, exchange: string, chain: seq<LookupChain.ConfigEntry>)

  /** The helper configuration, the docker configuration and the secret sources. */
  datatype Environment = Environment(config: string -> Result<Fragment, string>,
                                     docker: string -> Result<Option<DockerEntry>, string>,
                                     world: LookupChain.World)

  /** A binding's override, if its lookup succeeds. */
  function Override(frag: Fragment, w: LookupChain.World, binding: string): Option<string> {
    match LookupChain.Lookup(frag.chain, w, binding)
    case Value(v) => Some(v)
    case _ => None
  }

  /** The overrides of the five bindings. */
  datatype Overrides = Overrides(username: Option<string>, password: Option<string>, auth: Option<string>,
                                 identityToken: Option<string>, registryToken: Option<string>)

  function OverridesOf(frag: Fragment, w: LookupChain.World): Overrides {
    Overrides(Override(frag, w, "username"), Override(frag, w, "password"), Override(frag, w, "auth"),
              Override(frag, w, "identitytoken"), Override(frag, w, "registrytoken"))
  }

  function Or(o: Option<string>, otherwise: string): string { if o.Some? then o.value else otherwise }

  /** Exchange method and overrides on top of the docker entry. */
  function Layer(base: AuthConfig, exchange: string, o: Overrides): AuthConfig {
    var username := Or(o.username, base.username);
    AuthConfig(if o.password.Some? && username == "" then "unset" else username,
               Or(o.password, base.password), Or(o.auth, base.auth),
               Or(o.identityToken, base.identityToken), Or(o.registryToken, base.registryToken), exchange)
  }

  type Memo = map<string, Authenticator>

  function Derive(memo: Memo, registry: string, service: string, realm: string, env: Environment)
    : (Memo, Result<AuthConfig, string>)
  {
    if registry in memo && Authenticate(memo[registry], registry, service, realm) != Ok(EMPTY) then
      (memo, Authenticate(memo[registry], registry, service, realm))
    else
      match env.config(registry)
      case Err(e) => (memo, Err(e))
      case Ok(frag) =>
        var o := OverridesOf(frag, env.world);
        if !frag.parseDocker then (memo, Ok(Layer(EMPTY, frag.exchange, o)))
        else
          match env.docker(registry)
          case Err(e) => (memo, Err(e))
          case Ok(None) => (memo, Ok(Layer(EMPTY, frag.exchange, o)))
          case Ok(Some(d)) => (memo[registry := Remembered(d)], Ok(Layer(Raw(d), frag.exchange, o)))
  }

  /******* What a call answers, by the fields *******/

  const NO_ENTRY := DockerEntry("", "", "", "", "")

  /** The authenticator decides the call: it fails, or has some credentials. */
  predicate Settles(a: Authenticator, registry: string, service: string, realm: string) {
    match a
    case Custom(run) => run(registry, service, realm) != Ok(EMPTY)
    case Remembered(d) => d != NO_ENTRY
  }

  predicate IsBare(c: AuthConfig, d: DockerEntry) {
    && c.username == d.username && c.password == d.password && c.auth == d.auth
    && c.identityToken == d.identityToken && c.registryToken == d.registryToken && c.exchange == ""
  }

  predicate SettledAnswer(a: Authenticator, registry: string, service: string, realm: string, r: Result<AuthConfig, string>) {
    match a
    case Custom(run) => r == run(registry, service, realm)
    case Remembered(d) => r.Ok? && IsBare(r.value, d)
  }

  /** What the chain has for a binding, and else what the docker entry says. */
  function FromChain(frag: Fragment, w: LookupChain.World, binding: string, otherwise: string): string {
    match LookupChain.Lookup(frag.chain, w, binding)
    case Value(v) => v
    case _ => otherwise
  }

  /** Each field comes from its own binding, or else from the docker entry. A password found for an empty
      user name gets a placeholder for the name. */
  predicate IsLayered(c: AuthConfig, frag: Fragment, w: LookupChain.World, d: DockerEntry) {
    var username := FromChain(frag, w, "username", d.username);
    && c.username == (if username == "" && LookupChain.Lookup(frag.chain, w, "password").Value? then "unset" else username)
    && c.password == FromChain(frag, w, "password", d.password)
    && c.auth == FromChain(frag, w, "auth", d.auth)
    && c.identityToken == FromChain(frag, w, "identitytoken", d.identityToken)
    && c.registryToken == FromChain(frag, w, "registrytoken", d.registryToken)
    && c.exchange == frag.exchange
  }

  predicate IsDirect(env: Environment, registry: string, r: Result<AuthConfig, string>) {
    match env.config(registry)
    case Err(e) => r == Err(e)
    case Ok(frag) =>
      if !frag.parseDocker then r.Ok? && IsLayered(r.value, frag, env.world, NO_ENTRY)
      else match env.docker(registry)
           case Err(e) => r == Err(e)
           case Ok(d) => r.Ok? && IsLayered(r.value, frag, env.world, if d.Some? then d.value else NO_ENTRY)
  }

  lemma LayerIsLayered(d: DockerEntry, frag: Fragment, w: LookupChain.World)
    ensures IsLayered(Layer(Raw(d), frag.exchange, OverridesOf(frag, w)), frag, w, d)
  {
  }

  lemma EmptyIsNoEntry(d: DockerEntry)
    ensures Raw(NO_ENTRY) == EMPTY && (Raw(d) == EMPTY <==> d == NO_ENTRY) && IsBare(Raw(d), d)
  {
  }

  lemma SettlesIff(a: Authenticator, registry: string, service: string, realm: string)
    ensures Settles(a, registry, service, realm) <==> Authenticate(a, registry, service, realm) != Ok(EMPTY)
    ensures SettledAnswer(a, registry, service, realm, Authenticate(a, registry, service, realm))
  {
    if a.Remembered? { EmptyIsNoEntry(a.entry); }
  }

  /** The derivation, field by field. */
  lemma DeriveMeans(memo: Memo, registry: string, service: string, realm: string, env: Environment)
    ensures var r := Derive(memo, registry, service, realm, env).1;
      if registry in memo && Settles(memo[registry], registry, service, realm)
      then SettledAnswer(memo[registry], registry, service, realm, r)
      else IsDirect(env, registry, r)
  {
    if registry in memo { SettlesIff(memo[registry], registry, service, realm); }
    var c := env.config(registry);
    if c.Ok? {
      EmptyIsNoEntry(NO_ENTRY);
      LayerIsLayered(NO_ENTRY, c.value, env.world);
      var d := env.docker(registry);
      if d.Ok? && d.value.Some? { LayerIsLayered(d.value.value, c.value, env.world); }
    }
  }

  class Resolver {
    var authenticators: Memo

    constructor (authenticators: Memo)
      ensures this.authenticators == authenticators
    {
      this.authenticators := authenticators;
    }

    method DeriveAuthConfig(registry: string, service: string, realm: string, env: Environment)
      returns (r: Result<AuthConfig, string>)
      modifies this
      ensures (authenticators, r) == Derive(old(authenticators), registry, service, realm, env)
      ensures registry in old(authenticators) && Settles(old(authenticators)[registry], registry, service, realm) ==>
                SettledAnswer(old(authenticators)[registry], registry, service, realm, r)
      ensures !(registry in old(authenticators) && Settles(old(authenticators)[registry], registry, service, realm)) ==>
                IsDirect(env, registry, r)
    {
      DeriveMeans(authenticators, registry, service, realm, env);
      if registry in authenticators {
        var custom := Authenticate(authenticators[registry], registry, service, realm);
        if custom.Err? { return custom; }
        if custom.value != EMPTY { return custom; }
      }
      var config := env.config(registry);
      if config.Err? { return Err(config.error); }
      var frag := config.value;
      var authConfig := EMPTY;
      if frag.parseDocker {
        var found := env.docker(registry);
        if found.Err? { return Err(found.error); }
        if found.value.Some? {
          authenticators := authenticators[registry := Remembered(found.value.value)];
          authConfig := Raw(found.value.value);
        }
      }
      authConfig := authConfig.(exchange := frag.exchange);
      var o := OverridesOf(frag, env.world);
      if o.username.Some? { authConfig := authConfig.(username := o.username.value); }
      if o.password.Some? {
        authConfig := authConfig.(password := o.password.value);
        if authConfig.username == "" { authConfig := authConfig.(username := "unset"); }
      }
      if o.auth.Some? { authConfig := authConfig.(auth := o.auth.value); }
      if o.identityToken.Some? { authConfig := authConfig.(identityToken := o.identityToken.value); }
      if o.registryToken.Some? { authConfig := authConfig.(registryToken := o.registryToken.value); }
      return Ok(authConfig);
    }
  }

  /******* Memo versus direct derivation *******/

  predicate Same(o: Option<string>, v: string) { o.Some? ==> o.value == v }

  /** The layering leaves an entry as it is. */
  predicate LayerIsNoop(base: AuthConfig, exchange: string, o: Overrides) {
    && exchange == base.exchange
    && Same(o.password, base.password) && Same(o.auth, base.auth)
    && Same(o.identityToken, base.identityToken) && Same(o.registryToken, base.registryToken)
    && (if o.password.Some? && Or(o.username, base.username) == ""
        then base.username == "unset" else Same(o.username, base.username))
  }

  lemma LayerIsNoopIff(base: AuthConfig, exchange: string, o: Overrides)
    ensures Layer(base, exchange, o) == base <==> LayerIsNoop(base, exchange, o)
  {
  }

  /** A docker entry is found for the registry and not empty: a second call will not get past it. */
  predicate Shadows(env: Environment, registry: string) {
    var c, d := env.config(registry), env.docker(registry);
    c.Ok? && c.value.parseDocker && d.Ok? && d.value.Some? && Raw(d.value.value) != EMPTY
  }

  function EntryOf(env: Environment, registry: string): AuthConfig
    requires Shadows(env, registry)
  {
    Raw(env.docker(registry).value.value)
  }

  /** What a call without any authenticator derives. */
  function Direct(env: Environment, registry: string): Result<AuthConfig, string> {
    Derive(map[], registry, "", "", env).1
  }

  /** Two calls for a registry without authenticator, in the same environment, agree exactly when no
      non-empty docker entry was found or the layering leaves that entry as it is. */
  lemma SecondCallAgreesIff(memo: Memo, registry: string, service: string, realm: string, env: Environment)
    requires registry !in memo
    ensures var (memo1, first) := Derive(memo, registry, service, realm, env);
      var (memo2, second) := Derive(memo1, registry, service, realm, env);
      && first == Direct(env, registry)
      && (Shadows(env, registry) ==> second == Ok(EntryOf(env, registry)))
      && (first == second <==>
            Shadows(env, registry) ==>
              LayerIsNoop(EntryOf(env, registry), env.config(registry).value.exchange,
                          OverridesOf(env.config(registry).value, env.world)))
  {
    if Shadows(env, registry) {
      LayerIsNoopIff(EntryOf(env, registry), env.config(registry).value.exchange,
                     OverridesOf(env.config(registry).value, env.world));
    }
  }

  /** Under the default method `auto` a found, non-empty docker entry always makes them differ. */
  lemma SecondCallDiffersUnderAuto(memo: Memo, registry: string, service: string, realm: string, env: Environment)
    requires registry !in memo && Shadows(env, registry) && env.config(registry).value.exchange == "auto"
    ensures var (memo1, first) := Derive(memo, registry, service, realm, env);
      Derive(memo1, registry, service, realm, env).1 != first
  {
    SecondCallAgreesIff(memo, registry, service, realm, env);
  }

  /******* Any sequence of calls *******/

  /** A call with what the registry's challenge said. */
  datatype Call = Call(registry: string, service: string, realm: string)

  function DeriveFor(memo: Memo, c: Call, env: Environment): (Memo, Result<AuthConfig, string>) {
    Derive(memo, c.registry, c.service, c.realm, env)
  }

  /** The authenticators after a sequence of calls. */
  function MemoAfter(memo: Memo, calls: seq<Call>, env: Environment): Memo {
    if calls == [] then memo else
      var n := |calls| - 1;
      DeriveFor(MemoAfter(memo, calls[..n], env), calls[n], env).0
  }

  /** The registries whose docker entry a call remembers. */
  predicate Remembers(env: Environment, registry: string) {
    var c, d := env.config(registry), env.docker(registry);
    c.Ok? && c.value.parseDocker && d.Ok? && d.value.Some?
  }

  function EntryFor(env: Environment, registry: string): DockerEntry {
    var d := env.docker(registry);
    if d.Ok? && d.value.Some? then d.value.value else DockerEntry("", "", "", "", "")
  }

  /** The call gets past the authenticator, if there is one: it has nothing to say. */
  predicate FallsThrough(memo: Memo, c: Call) {
    c.registry in memo ==> Authenticate(memo[c.registry], c.registry, c.service, c.realm) == Ok(EMPTY)
  }

  /** One of the calls for the registry got past the authenticator it started with. */
  predicate FellThrough(memo: Memo, calls: seq<Call>, registry: string) {
    exists i :: 0 <= i < |calls| && calls[i].registry == registry && FallsThrough(memo, calls[i])
  }

  /** What one call does to the authenticators. */
  lemma DeriveRemembers(memo: Memo, c: Call, env: Environment)
    ensures DeriveFor(memo, c, env).0 ==
              if FallsThrough(memo, c) && Remembers(env, c.registry)
              then memo[c.registry := Remembered(EntryFor(env, c.registry))] else memo
  {
  }

  lemma {:induction false} MemoHolds(memo: Memo, calls: seq<Call>, env: Environment, registry: string)
    ensures var m := MemoAfter(memo, calls, env);
      if FellThrough(memo, calls, registry) && Remembers(env, registry)
      then registry in m && m[registry] == Remembered(EntryFor(env, registry))
      else (registry in m <==> registry in memo) && (registry in memo ==> m[registry] == memo[registry])
  {
    if calls != [] {
      var n := |calls| - 1;
      MemoHolds(memo, calls[..n], env, registry);
      FellThroughBefore(memo, calls, registry);
      DeriveRemembers(MemoAfter(memo, calls[..n], env), calls[n], env);
    }
  }

  lemma FellThroughBefore(memo: Memo, calls: seq<Call>, registry: string)
    requires calls != []
    ensures var n := |calls| - 1;
      FellThrough(memo, calls, registry) <==>
        FellThrough(memo, calls[..n], registry) || (calls[n].registry == registry && FallsThrough(memo, calls[n]))
  {
    var n := |calls| - 1;
    if FellThrough(memo, calls[..n], registry) {
      var i :| 0 <= i < n && calls[..n][i].registry == registry && FallsThrough(memo, calls[..n][i]);
      assert calls[i] == calls[..n][i];
    }
    if i :| 0 <= i < n && calls[i].registry == registry && FallsThrough(memo, calls[i]) {
      assert calls[..n][i] == calls[i];
    }
  }

  /** Over any sequence of calls with any challenges, from any authenticators: once a call for a registry got
      past its authenticator and found a docker entry, that entry has taken the authenticator's place, and it
      is returned bare unless it is empty; until then the authenticator decides, and where it has nothing
      to say the call layers. */
  lemma EveryCall(memo: Memo, calls: seq<Call>, env: Environment, c: Call)
    ensures DeriveFor(MemoAfter(memo, calls, env), c, env).1 ==
              if FellThrough(memo, calls, c.registry) && Remembers(env, c.registry) then
                if Shadows(env, c.registry) then Ok(EntryOf(env, c.registry)) else Direct(env, c.registry)
              else if FallsThrough(memo, c) then Direct(env, c.registry)
              else Authenticate(memo[c.registry], c.registry, c.service, c.realm)
  {
    MemoHolds(memo, calls, env, c.registry);
    DirectAnyway(MemoAfter(memo, calls, env), c, env);
  }

  lemma DirectAnyway(memo: Memo, c: Call, env: Environment)
    ensures DeriveFor(memo, c, env).1 ==
              if FallsThrough(memo, c) then Direct(env, c.registry)
              else Authenticate(memo[c.registry], c.registry, c.service, c.realm)
  {
  }

  predicate Called(calls: seq<Call>, registry: string) {
    exists i :: 0 <= i < |calls| && calls[i].registry == registry
  }

  /******* The choice of exchange *******/

  datatype Choice = UseToken | Basic | OAuth | Unsupported(exchange: string)

  function Choose(c: AuthConfig): Choice {
    if c.registryToken != "" then UseToken
    else if c.exchange == "basic" then Basic
    else if c.exchange == "oauth2" then OAuth
    else if c.exchange != "auto" then Unsupported(c.exchange)
    else if c.username == "<token>" || c.identityToken != "" then OAuth
    else Basic
  }

  /** How credentials are used: a registry token as it is; the configured method otherwise; and for `auto`
      the OAuth flow exactly with an identity token or the user name that stands for one. */
  lemma ChoiceIff(c: AuthConfig)
    ensures Choose(c).UseToken? <==> c.registryToken != ""
    ensures Choose(c).OAuth? <==>
              c.registryToken == "" &&
              (c.exchange == "oauth2" || (c.exchange == "auto" && (c.username == "<token>" || c.identityToken != "")))
    ensures Choose(c).Basic? <==>
              c.registryToken == "" &&
              (c.exchange == "basic" || (c.exchange == "auto" && c.username != "<token>" && c.identityToken == ""))
    ensures Choose(c).Unsupported? <==> c.registryToken == "" && !KnownMethod(c.exchange)
    ensures Choose(c).Unsupported? ==> Choose(c).exchange == c.exchange
  {
  }

  predicate KnownMethod(exchange: string) { exchange == "auto" || exchange == "basic" || exchange == "oauth2" }

  lemma DirectTakesMethod(env: Environment, registry: string)
    requires Direct(env, registry).Ok?
    ensures env.config(registry).Ok? && Direct(env, registry).value.exchange == env.config(registry).value.exchange
  {
  }

  lemma EntryHasNoMethod(env: Environment, registry: string)
    requires Shadows(env, registry)
    ensures EntryOf(env, registry).exchange == ""
  {
  }

  /** Exactly when an exchange is refused, for any configured method: the first one for a registry when the
      method is unknown and no registry token was derived; a later one on the same resolver, where a
      non-empty docker entry was found, when that entry has no registry token, known method or not. */
  lemma LaterExchangeRefusedIff(memo: Memo, calls: seq<Call>, env: Environment, c: Call)
    requires c.registry !in memo && Direct(env, c.registry).Ok?
    ensures var direct := Direct(env, c.registry).value;
      var got := DeriveFor(MemoAfter(memo, calls, env), c, env).1;
      && got.Ok?
      && (Choose(got.value).Unsupported? <==>
            if Called(calls, c.registry) && Shadows(env, c.registry) then EntryOf(env, c.registry).registryToken == ""
            else !KnownMethod(env.config(c.registry).value.exchange) && direct.registryToken == "")
  {
    EveryCall(memo, calls, env, c);
    assert FellThrough(memo, calls, c.registry) <==> Called(calls, c.registry);
    DirectTakesMethod(env, c.registry);
    var got := DeriveFor(MemoAfter(memo, calls, env), c, env).1;
    if Called(calls, c.registry) && Shadows(env, c.registry) { EntryHasNoMethod(env, c.registry); }
    ChoiceIff(got.value);
  }
}
