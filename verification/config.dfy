/**
 * The OpenAPI configuration builder `newConfig` (config.go): a record of fixed
 * defaults, then every option applied to it in the order given.
 *
 * Options come from an external package and mutate the record through a
 * pointer; here an option is a total function from record to record, and the
 * builder is a left fold of the options over the defaults.
 */
module OpenAPIConfig {
  import opened Wrappers

  /** Settings of the documentation UI; the external record's fields are kept as a name-to-value map. */
  datatype SwaggerConfig = SwaggerConfig(settings: map<string, string>)

  /** A declared security scheme (bearer token, OAuth2 flow, ...), by its external settings. */
  datatype SecurityScheme = SecurityScheme(settings: map<string, string>)

  /** The logger: the built-in one that discards every message, or one supplied by the caller. */
  datatype Logger = NoopLogger | CallerLogger(name: string)

  datatype Config = Config(
    openAPIVersion: string,
    title: string,
    version: string,
    description: Option<string>,
    disableOpenAPI: bool,
    docsPath: string,
    swaggerConfig: SwaggerConfig,
    securitySchemes: map<string, SecurityScheme>,
    logger: Logger)

  /** An option rewrites the record it is given. */
  type OpenAPIOption = Config -> Config

  /** The record `newConfig` starts from. */
  function Defaults(): Config {
    Config(
      openAPIVersion := "3.1.0",
      title := "Fiber OpenAPI",
      version := "",
      description := None,
      disableOpenAPI := false,
      docsPath := "/docs",
      swaggerConfig := SwaggerConfig(map[]),
      securitySchemes := map[],
      logger := NoopLogger)
  }

  /** Applies `opts` to `c`, first option first. */
  function ApplyAll(c: Config, opts: seq<OpenAPIOption>): Config
    decreases |opts|
  {
    if opts == [] then c else ApplyAll(opts[0](c), opts[1..])
  }

  /** newConfig: the defaults, then each option once, in order. */
  method NewConfig(opts: seq<OpenAPIOption>) returns (cfg: Config)
    ensures cfg == ApplyAll(Defaults(), opts)
    ensures opts == [] ==>
              && cfg.openAPIVersion == "3.1.0" && cfg.title == "Fiber OpenAPI" && cfg.version == ""
              && cfg.description == None && !cfg.disableOpenAPI && cfg.docsPath == "/docs"
              && cfg.securitySchemes == map[] && cfg.swaggerConfig.settings == map[]
              && cfg.logger == NoopLogger
  {
    cfg := Defaults();
    var i := 0;
    while i < |opts|
      invariant 0 <= i <= |opts|
      invariant cfg == ApplyAll(Defaults(), opts[..i])
    {
      ApplyAllSnoc(Defaults(), opts[..i], opts[i]);
      assert opts[..i + 1] == opts[..i] + [opts[i]];
      cfg := opts[i](cfg);
      i := i + 1;
    }
    assert opts[..i] == opts;
  }

  /** Appending an option applies it to what the earlier options built. */
  lemma {:induction false} ApplyAllSnoc(c: Config, opts: seq<OpenAPIOption>, o: OpenAPIOption)
    ensures ApplyAll(c, opts + [o]) == o(ApplyAll(c, opts))
    decreases |opts|
  {
    if opts != [] {
      assert (opts + [o])[1..] == opts[1..] + [o];
      ApplyAllSnoc(opts[0](c), opts[1..], o);
    }
  }

  /** Applying two lists one after the other is applying their concatenation. */
  lemma {:induction false} ApplyAllConcat(c: Config, first: seq<OpenAPIOption>, second: seq<OpenAPIOption>)
    ensures ApplyAll(c, first + second) == ApplyAll(ApplyAll(c, first), second)
    decreases |first|
  {
    if first != [] {
      assert (first + second)[1..] == first[1..] + second;
      ApplyAllConcat(first[0](c), first[1..], second);
    } else {
      assert first + second == second;
    }
  }

  /** `o` leaves the field that `field` reads as it was. */
  ghost predicate Preserves<T>(o: OpenAPIOption, field: Config -> T) {
    forall c :: field(o(c)) == field(c)
  }

  /** `o` sets the field that `field` reads to `v`, whatever it was. */
  ghost predicate Sets<T>(o: OpenAPIOption, field: Config -> T, v: T) {
    forall c :: field(o(c)) == v
  }

  /** Options that do not touch a field leave it at the value it started with
      (for `newConfig`, the default). */
  lemma {:induction false} UntouchedFieldKept<T>(c: Config, opts: seq<OpenAPIOption>, field: Config -> T)
    requires forall i :: 0 <= i < |opts| ==> Preserves(opts[i], field)
    ensures field(ApplyAll(c, opts)) == field(c)
    decreases |opts|
  {
    if opts != [] {
      assert Preserves(opts[0], field);
      UntouchedFieldKept(opts[0](c), opts[1..], field);
    }
  }

  /** Last write wins: after an option that sets a field, only later options
      that touch that field can change it. */
  lemma LastWriteWins<T>(
    c: Config, before: seq<OpenAPIOption>, o: OpenAPIOption, after: seq<OpenAPIOption>,
    field: Config -> T, v: T)
    requires Sets(o, field, v)
    requires forall i :: 0 <= i < |after| ==> Preserves(after[i], field)
    ensures field(ApplyAll(c, before + [o] + after)) == v
  {
    ApplyAllConcat(c, before + [o], after);
    ApplyAllSnoc(c, before, o);
    UntouchedFieldKept(o(ApplyAll(c, before)), after, field);
  }

  // ---------------------------------------------------------------------------
  // Setter-shaped options, as the external option package provides them
  // ---------------------------------------------------------------------------

  function WithTitle(title: string): OpenAPIOption {
    (c: Config) => c.(title := title)
  }

  /** Sets the version of the described API (the document's info version), not the OpenAPI version. */
  function WithVersion(version: string): OpenAPIOption {
    (c: Config) => c.(version := version)
  }

  function WithOpenAPIVersion(openAPIVersion: string): OpenAPIOption {
    (c: Config) => c.(openAPIVersion := openAPIVersion)
  }

  function WithDescription(description: string): OpenAPIOption {
    (c: Config) => c.(description := Some(description))
  }

  function WithDocsPath(path: string): OpenAPIOption {
    (c: Config) => c.(docsPath := path)
  }

  function WithDisableOpenAPI(disable: bool): OpenAPIOption {
    (c: Config) => c.(disableOpenAPI := disable)
  }

  function WithSwaggerConfig(ui: SwaggerConfig): OpenAPIOption {
    (c: Config) => c.(swaggerConfig := ui)
  }

  /** Declares (or redeclares) one named security scheme. */
  function WithSecurity(name: string, scheme: SecurityScheme): OpenAPIOption {
    (c: Config) => c.(securitySchemes := c.securitySchemes[name := scheme])
  }

  /** Of two title options, the later one decides the title, whatever options
      for other fields come between or after them. */
  lemma LaterTitleWins(first: string, second: string, between: seq<OpenAPIOption>, others: seq<OpenAPIOption>)
    requires forall i :: 0 <= i < |others| ==> Preserves(others[i], (c: Config) => c.title)
    ensures ApplyAll(Defaults(), [WithTitle(first)] + between + [WithTitle(second)] + others).title == second
  {
    LastWriteWins(Defaults(), [WithTitle(first)] + between, WithTitle(second), others, (c: Config) => c.title, second);
  }

  /** Options for other fields leave the default title, docs path and OpenAPI version alone. */
  lemma OtherSettersKeepDefaults(version: string, description: string, disable: bool, name: string, scheme: SecurityScheme)
    ensures ApplyAll(Defaults(), [WithVersion(version), WithDescription(description), WithDisableOpenAPI(disable), WithSecurity(name, scheme)]).title == "Fiber OpenAPI"
    ensures ApplyAll(Defaults(), [WithVersion(version), WithDescription(description), WithDisableOpenAPI(disable), WithSecurity(name, scheme)]).docsPath == "/docs"
    ensures ApplyAll(Defaults(), [WithVersion(version), WithDescription(description), WithDisableOpenAPI(disable), WithSecurity(name, scheme)]).openAPIVersion == "3.1.0"
  {
    var opts := [WithVersion(version), WithDescription(description), WithDisableOpenAPI(disable), WithSecurity(name, scheme)];
    UntouchedFieldKept(Defaults(), opts, (c: Config) => c.title);
    UntouchedFieldKept(Defaults(), opts, (c: Config) => c.docsPath);
    UntouchedFieldKept(Defaults(), opts, (c: Config) => c.openAPIVersion);
  }

  /** Security schemes accumulate by name: a later declaration under another name keeps the earlier one. */
  lemma SecuritySchemesAccumulate(c: Config, n1: string, s1: SecurityScheme, n2: string, s2: SecurityScheme)
    ensures var schemes := ApplyAll(c, [WithSecurity(n1, s1), WithSecurity(n2, s2)]).securitySchemes;
            && n2 in schemes && schemes[n2] == s2
            && (n1 != n2 ==> n1 in schemes && schemes[n1] == s1)
  {
    ApplyAllSnoc(c, [], WithSecurity(n1, s1));
    ApplyAllSnoc(c, [WithSecurity(n1, s1)], WithSecurity(n2, s2));
  }
}
