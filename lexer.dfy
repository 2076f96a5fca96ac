/**
 * The top level of the JDL lexer module (jhipster-core,
 * lib/dsl/lexer/lexer.js): a fixed script that registers the BOOLEAN
 * category, whitespace and comments, the keyword and punctuation tokens,
 * and the token lists of four sub-modules in the module-level `tokens`
 * object, then the identifier token NAME; `Object.values(tokens)`, in
 * insertion order, is the token list handed to the lexer.
 */
module JdlLexer {
  import opened Wrappers
  import opened TokenTypes
  import opened Registry
  import opened CreateToken

  /**
   * What the four sub-modules provide: their token lists, and the category
   * tokens of the application and deployment configuration keys.
   */
  datatype TokenModules = TokenModules(
    applicationTokens: seq<TokenType>,
    applicationCategory: TokenType,
    deploymentTokens: seq<TokenType>,
    deploymentCategory: TokenType,
    relationshipTypeTokens: seq<TokenType>,
    minMaxTokens: seq<TokenType>)

  /** Every object literal of the list can be passed to `createTokenFromConfig`. */
  predicate Extendable(shared: SharedTokens, literals: seq<Config>) {
    forall i :: 0 <= i < |literals| ==> CanExtendCategories(shared, literals[i])
  }

  /**
   * The assignments `tokens[c.name] = newToken` that `createTokenFromConfig`
   * makes for the object literals `literals`, in order.
   */
  function ConfigEntries(shared: SharedTokens, literals: seq<Config>): (log: seq<Entry>)
    requires Extendable(shared, literals)
    ensures |log| == |literals|
    ensures forall i :: 0 <= i < |literals| ==>
      log[i] == Entry(literals[i].name, TokenType(Normalise(shared, literals[i])))
    ensures KeyedByName(log)
  {
    seq(|literals|, i requires 0 <= i < |literals| =>
      Entry(literals[i].name, TokenType(Normalise(shared, literals[i]))))
  }

  /**
   * Consecutive statements `createTokenFromConfig({ ... })` on the object
   * literals `literals`, in the order they are written.
   */
  method CreateTokensFromLiterals(shared: SharedTokens, tokens: TokenRegistry, literals: seq<Config>)
    requires Extendable(shared, literals)
    modifies tokens
    ensures tokens.assignments == old(tokens.assignments) + ConfigEntries(shared, literals)
  {
    for i := 0 to |literals|
      invariant Extendable(shared, literals[..i])
      invariant tokens.assignments == old(tokens.assignments) + ConfigEntries(shared, literals[..i])
    {
      var created := CreateTokenFromLiteral(shared, tokens, literals[i]);
      assert literals[..i + 1] == literals[..i] + [literals[i]];
      assert ConfigEntries(shared, literals[..i + 1])
        == ConfigEntries(shared, literals[..i]) + [Entry(literals[i].name, created)];
    }
    assert literals[..|literals|] == literals;
  }

  /**
   * `moduleTokens.forEach(token => { tokens[token.name] = token; })`: the
   * sub-module's tokens are stored under their own names, in their order,
   * without any keyword tagging or labelling.
   */
  method RegisterModuleTokens(moduleTokens: seq<TokenType>, tokens: TokenRegistry)
    modifies tokens
    ensures tokens.assignments == old(tokens.assignments) + EntriesOf(moduleTokens)
    ensures tokens.Contents() == Replay(old(tokens.Contents()), EntriesOf(moduleTokens))
  {
    for i := 0 to |moduleTokens|
      invariant tokens.assignments == old(tokens.assignments) + EntriesOf(moduleTokens[..i])
    {
      var token := moduleTokens[i];
      assert moduleTokens[..i + 1] == moduleTokens[..i] + [token];
      EntriesOfSnoc(moduleTokens[..i], token);
      tokens.Put(token.config.name, token);
    }
    assert moduleTokens[..|moduleTokens|] == moduleTokens;
    ReplayConcat(Empty, old(tokens.assignments), EntriesOf(moduleTokens));
  }

  /** Lines 56-59: the abstract BOOLEAN category, which has no pattern of its own. */
  const BooleanLiteral: Config := Config("BOOLEAN", NotApplicable)

  /** Lines 67-85: whitespace and the two kinds of comments; the whitespace and block comments are skipped. */
  const CommentLiterals: seq<Config> := [
    Config("WHITESPACE", RegExp(@"[\n\t\r \u2028\u2029]+"), group := Some(Skipped)),
    Config("JAVADOC", RegExp(@"\/\*\*([\s\S]*?)\*\/")),
    Config("BLOCK_COMMENT", RegExp(@"\/\*([\s\S]*?)\*\/"), group := Some(Skipped))
  ]

  /** Lines 89-90: the first application constants. */
  const ApplicationConstantLiterals: seq<Config> := [
    Config("CONFIG", Literal("config")),
    Config("ENTITIES", Literal("entities"))
  ]

  /** Line 97: APPLICATION, registered after the application tokens. */
  const ApplicationLiteral: Config := Config("APPLICATION", Literal("application"))

  /** Lines 100-104: SERVICE_DISCOVERY_TYPE, in both the configuration and the deployment key categories. */
  function ServiceDiscoveryLiteral(configKey: TokenType, deploymentKey: TokenType): Config {
    Config("SERVICE_DISCOVERY_TYPE", Literal("serviceDiscoveryType"), categories := Many([configKey, deploymentKey]))
  }

  /** Lines 110-120: DEPLOYMENT, the boolean constants (in the BOOLEAN category), and the entity and relationship constants. */
  function EntityLiterals(boolean: TokenType): seq<Config> {
    [
      Config("DEPLOYMENT", Literal("deployment")),
      Config("TRUE", Literal("true"), categories := Many([boolean])),
      Config("FALSE", Literal("false"), categories := Many([boolean])),
      Config("ENTITY", Literal("entity")),
      Config("ENUM", Literal("enum")),
      Config("RELATIONSHIP", Literal("relationship")),
      Config("JPA_DERIVED_IDENTIFIER", Literal("jpaDerivedIdentifier"))
    ]
  }

  /** Lines 128-145: the options and the first validations. */
  const OptionLiterals: seq<Config> := [
    Config("TO", Literal("to")),
    Config("STAR", Literal("*")),
    Config("WITH", Literal("with")),
    Config("EXCEPT", Literal("except")),
    Config("CLIENT_ROOT_FOLDER", Literal("clientRootFolder")),
    Config("NO_FLUENT_METHOD", Literal("noFluentMethod")),
    Config("READ_ONLY", Literal("readOnly")),
    Config("DTO", Literal("dto")),
    Config("PAGINATE", Literal("paginate")),
    Config("SERVICE", Literal("service")),
    Config("MICROSERVICE", Literal("microservice")),
    Config("SEARCH", Literal("search")),
    Config("ANGULAR_SUFFIX", Literal("angularSuffix")),
    Config("FILTER", Literal("filter")),
    Config("REQUIRED", Literal("required")),
    Config("UNIQUE", Literal("unique"))
  ]

  /** Lines 150-171: the last validations, the value literals, punctuation and annotations. */
  const ValueAndPunctuationLiterals: seq<Config> := [
    Config("PATTERN", Literal("pattern")),
    Config("REGEX", RegExp(@"\/[^\n\r]*\/")),
    Config("DECIMAL", RegExp(@"-?\d+\.\d+")),
    Config("INTEGER", RegExp(@"-?\d+")),
    Config("STRING", RegExp(@"""(?:[^""])*""")),
    Config("LPAREN", Literal("(")),
    Config("RPAREN", Literal(")")),
    Config("LCURLY", Literal("{")),
    Config("RCURLY", Literal("}")),
    Config("LSQUARE", Literal("[")),
    Config("RSQUARE", Literal("]")),
    Config("COMMA", Literal(",")),
    Config("COMMA_WITHOUT_NEWLINE", RegExp(@",[^\n\r]")),
    Config("EQUALS", Literal("=")),
    Config("DOT", Literal(".")),
    Config("AT", Literal("@"))
  ]

  /** None of the object literals of the script gives its categories as one bare token. */
  lemma LiteralsAreExtendable(shared: SharedTokens, boolean: TokenType)
    ensures CanExtendCategories(shared, BooleanLiteral)
    ensures Extendable(shared, CommentLiterals)
    ensures Extendable(shared, ApplicationConstantLiterals)
    ensures CanExtendCategories(shared, ApplicationLiteral)
    ensures forall configKey, deploymentKey ::
      CanExtendCategories(shared, ServiceDiscoveryLiteral(configKey, deploymentKey))
    ensures Extendable(shared, EntityLiterals(boolean))
    ensures Extendable(shared, OptionLiterals)
    ensures Extendable(shared, ValueAndPunctuationLiterals)
  {
  }

  /** The BOOLEAN category token, as `createTokenFromConfig` returns it. */
  function BooleanToken(shared: SharedTokens): TokenType {
    TokenType(Normalise(shared, BooleanLiteral))
  }

  /** Line 97: the assignment of APPLICATION. */
  function ApplicationEntry(shared: SharedTokens): Entry {
    Entry("APPLICATION", TokenType(Normalise(shared, ApplicationLiteral)))
  }

  /** Lines 100-104: the assignment of SERVICE_DISCOVERY_TYPE. */
  function ServiceDiscoveryEntry(shared: SharedTokens, modules: TokenModules): Entry {
    var literal := ServiceDiscoveryLiteral(modules.applicationCategory, modules.deploymentCategory);
    Entry(literal.name, TokenType(Normalise(shared, literal)))
  }

  /** Lines 56-94: the assignments made before APPLICATION, ending with the application tokens. */
  function BeforeApplication(shared: SharedTokens, modules: TokenModules): seq<Entry> {
    [Entry("BOOLEAN", BooleanToken(shared))]
      + ConfigEntries(shared, CommentLiterals)
      + ConfigEntries(shared, ApplicationConstantLiterals)
      + EntriesOf(modules.applicationTokens)
  }

  /** Lines 100-171: the assignments made after APPLICATION and before NAME. */
  function AfterApplication(shared: SharedTokens, modules: TokenModules): seq<Entry> {
    [ServiceDiscoveryEntry(shared, modules)]
      + EntriesOf(modules.deploymentTokens)
      + ConfigEntries(shared, EntityLiterals(BooleanToken(shared)))
      + EntriesOf(modules.relationshipTypeTokens)
      + ConfigEntries(shared, OptionLiterals)
      + EntriesOf(modules.minMaxTokens)
      + ConfigEntries(shared, ValueAndPunctuationLiterals)
  }

  /** The assignments of lines 56-171, every one before the identifier token's. */
  function ScriptBeforeName(shared: SharedTokens, modules: TokenModules): seq<Entry> {
    [Entry("BOOLEAN", BooleanToken(shared))]
      + ConfigEntries(shared, CommentLiterals)
      + ConfigEntries(shared, ApplicationConstantLiterals)
      + EntriesOf(modules.applicationTokens)
      + [ApplicationEntry(shared)]
      + [ServiceDiscoveryEntry(shared, modules)]
      + EntriesOf(modules.deploymentTokens)
      + ConfigEntries(shared, EntityLiterals(BooleanToken(shared)))
      + EntriesOf(modules.relationshipTypeTokens)
      + ConfigEntries(shared, OptionLiterals)
      + EntriesOf(modules.minMaxTokens)
      + ConfigEntries(shared, ValueAndPunctuationLiterals)
  }

  /** Every assignment the lexer module makes to `tokens`, in order; line 174 adds NAME last. */
  function JdlScript(shared: SharedTokens, modules: TokenModules): (script: seq<Entry>)
    ensures |script| == 48 + |modules.applicationTokens| + |modules.deploymentTokens|
      + |modules.relationshipTypeTokens| + |modules.minMaxTokens|
    ensures script[|script| - 1] == Entry("NAME", shared.name)
  {
    LiteralsAreExtendable(shared, BooleanToken(shared));
    ScriptBeforeName(shared, modules) + [Entry("NAME", shared.name)]
  }

  /** `Object.values(tokens)` once the script has run: the token list given to the lexer (line 179). */
  function LexerDefinition(shared: SharedTokens, modules: TokenModules): (defs: seq<TokenType>)
    ensures 0 < |defs| <= |JdlScript(shared, modules)|
  {
    var script := JdlScript(shared, modules);
    ReplayGrowsByAtMostLog(Empty, script);
    ReplayPresentKeys(Empty, script);
    assert script[|script| - 1] in script;
    assert Has(Replay(Empty, script), "NAME");
    Values(Replay(Empty, script))
  }

  /** The script falls into the assignments before APPLICATION, APPLICATION, and those after it. */
  lemma ScriptSections(shared: SharedTokens, modules: TokenModules)
    ensures JdlScript(shared, modules)
      == BeforeApplication(shared, modules) + [ApplicationEntry(shared)]
        + (AfterApplication(shared, modules) + [Entry("NAME", shared.name)])
  {
    LiteralsAreExtendable(shared, BooleanToken(shared));
    var head := BeforeApplication(shared, modules) + [ApplicationEntry(shared)];
    var tail: seq<Entry> := [];
    AppendAssoc(head, tail, [ServiceDiscoveryEntry(shared, modules)]);
    tail := tail + [ServiceDiscoveryEntry(shared, modules)];
    AppendAssoc(head, tail, EntriesOf(modules.deploymentTokens));
    tail := tail + EntriesOf(modules.deploymentTokens);
    AppendAssoc(head, tail, ConfigEntries(shared, EntityLiterals(BooleanToken(shared))));
    tail := tail + ConfigEntries(shared, EntityLiterals(BooleanToken(shared)));
    AppendAssoc(head, tail, EntriesOf(modules.relationshipTypeTokens));
    tail := tail + EntriesOf(modules.relationshipTypeTokens);
    AppendAssoc(head, tail, ConfigEntries(shared, OptionLiterals));
    tail := tail + ConfigEntries(shared, OptionLiterals);
    AppendAssoc(head, tail, EntriesOf(modules.minMaxTokens));
    tail := tail + EntriesOf(modules.minMaxTokens);
    AppendAssoc(head, tail, ConfigEntries(shared, ValueAndPunctuationLiterals));
    tail := tail + ConfigEntries(shared, ValueAndPunctuationLiterals);
    AppendAssoc(head, tail, [Entry("NAME", shared.name)]);
    tail := tail + [Entry("NAME", shared.name)];
    assert [] + [ServiceDiscoveryEntry(shared, modules)] == [ServiceDiscoveryEntry(shared, modules)];
  }

  /** Concatenation is associative. */
  lemma AppendAssoc<T>(a: seq<T>, b: seq<T>, c: seq<T>)
    ensures a + b + c == a + (b + c)
  {
  }

  /** A key that names none of the object literals is not written by their registrations. */
  lemma UnwrittenByLiterals(shared: SharedTokens, literals: seq<Config>, k: string)
    requires Extendable(shared, literals)
    requires forall i :: 0 <= i < |literals| ==> literals[i].name != k
    ensures k !in AssignedKeys(ConfigEntries(shared, literals))
  {
  }

  /** Every assignment before NAME stores a token under the token's own name. */
  lemma ScriptKeyedByName(shared: SharedTokens, modules: TokenModules)
    ensures KeyedByName(ScriptBeforeName(shared, modules))
  {
    LiteralsAreExtendable(shared, BooleanToken(shared));
    var log := [Entry("BOOLEAN", BooleanToken(shared))];
    KeyedByNameConcat(log, ConfigEntries(shared, CommentLiterals));
    log := log + ConfigEntries(shared, CommentLiterals);
    KeyedByNameConcat(log, ConfigEntries(shared, ApplicationConstantLiterals));
    log := log + ConfigEntries(shared, ApplicationConstantLiterals);
    KeyedByNameConcat(log, EntriesOf(modules.applicationTokens));
    log := log + EntriesOf(modules.applicationTokens);
    KeyedByNameConcat(log, [ApplicationEntry(shared)]);
    log := log + [ApplicationEntry(shared)];
    KeyedByNameConcat(log, [ServiceDiscoveryEntry(shared, modules)]);
    log := log + [ServiceDiscoveryEntry(shared, modules)];
    KeyedByNameConcat(log, EntriesOf(modules.deploymentTokens));
    log := log + EntriesOf(modules.deploymentTokens);
    KeyedByNameConcat(log, ConfigEntries(shared, EntityLiterals(BooleanToken(shared))));
    log := log + ConfigEntries(shared, EntityLiterals(BooleanToken(shared)));
    KeyedByNameConcat(log, EntriesOf(modules.relationshipTypeTokens));
    log := log + EntriesOf(modules.relationshipTypeTokens);
    KeyedByNameConcat(log, ConfigEntries(shared, OptionLiterals));
    log := log + ConfigEntries(shared, OptionLiterals);
    KeyedByNameConcat(log, EntriesOf(modules.minMaxTokens));
    log := log + EntriesOf(modules.minMaxTokens);
    KeyedByNameConcat(log, ConfigEntries(shared, ValueAndPunctuationLiterals));
    log := log + ConfigEntries(shared, ValueAndPunctuationLiterals);
  }

  /** Once the script has run, every token is stored under its own name. */
  lemma RegistryKeyedByName(shared: SharedTokens, modules: TokenModules)
    requires shared.name.config.name == "NAME"
    ensures KeyedByName(Replay(Empty, JdlScript(shared, modules)))
  {
    ScriptKeyedByName(shared, modules);
    KeyedByNameConcat(ScriptBeforeName(shared, modules), [Entry("NAME", shared.name)]);
  }

  /**
   * The identifier token is named "NAME" and no sub-module token claims
   * that name, so that the final `tokens.NAME = NAME` adds a new key.
   */
  ghost predicate NameIsUnclaimed(shared: SharedTokens, modules: TokenModules) {
    && "NAME" !in Names(modules.applicationTokens)
    && "NAME" !in Names(modules.deploymentTokens)
    && "NAME" !in Names(modules.relationshipTypeTokens)
    && "NAME" !in Names(modules.minMaxTokens)
  }

  /** None of the keys written before NAME is "NAME" when no sub-module token is named so. */
  lemma NameUnwrittenBeforeLast(shared: SharedTokens, modules: TokenModules)
    requires NameIsUnclaimed(shared, modules)
    ensures "NAME" !in AssignedKeys(ScriptBeforeName(shared, modules))
  {
    LiteralsAreExtendable(shared, BooleanToken(shared));
    var log := [Entry("BOOLEAN", BooleanToken(shared))];
    UnwrittenByLiterals(shared, CommentLiterals, "NAME");
    UnwrittenByConcat(log, ConfigEntries(shared, CommentLiterals), "NAME");
    log := log + ConfigEntries(shared, CommentLiterals);
    UnwrittenByLiterals(shared, ApplicationConstantLiterals, "NAME");
    UnwrittenByConcat(log, ConfigEntries(shared, ApplicationConstantLiterals), "NAME");
    log := log + ConfigEntries(shared, ApplicationConstantLiterals);
    UnwrittenByConcat(log, EntriesOf(modules.applicationTokens), "NAME");
    log := log + EntriesOf(modules.applicationTokens);
    UnwrittenByConcat(log, [ApplicationEntry(shared)], "NAME");
    log := log + [ApplicationEntry(shared)];
    UnwrittenByConcat(log, [ServiceDiscoveryEntry(shared, modules)], "NAME");
    log := log + [ServiceDiscoveryEntry(shared, modules)];
    UnwrittenByConcat(log, EntriesOf(modules.deploymentTokens), "NAME");
    log := log + EntriesOf(modules.deploymentTokens);
    UnwrittenByLiterals(shared, EntityLiterals(BooleanToken(shared)), "NAME");
    UnwrittenByConcat(log, ConfigEntries(shared, EntityLiterals(BooleanToken(shared))), "NAME");
    log := log + ConfigEntries(shared, EntityLiterals(BooleanToken(shared)));
    UnwrittenByConcat(log, EntriesOf(modules.relationshipTypeTokens), "NAME");
    log := log + EntriesOf(modules.relationshipTypeTokens);
    UnwrittenByLiterals(shared, OptionLiterals, "NAME");
    UnwrittenByConcat(log, ConfigEntries(shared, OptionLiterals), "NAME");
    log := log + ConfigEntries(shared, OptionLiterals);
    UnwrittenByConcat(log, EntriesOf(modules.minMaxTokens), "NAME");
    log := log + EntriesOf(modules.minMaxTokens);
    UnwrittenByLiterals(shared, ValueAndPunctuationLiterals, "NAME");
    UnwrittenByConcat(log, ConfigEntries(shared, ValueAndPunctuationLiterals), "NAME");
    log := log + ConfigEntries(shared, ValueAndPunctuationLiterals);
  }

  /**
   * Lines 173-179: NAME is registered after every other token, so it is the
   * last token handed to the lexer and no token before it is named NAME;
   * every keyword therefore precedes the identifier token.
   */
  lemma NameComesLast(shared: SharedTokens, modules: TokenModules)
    requires NameIsUnclaimed(shared, modules)
    ensures var defs := LexerDefinition(shared, modules);
      && |defs| > 0
      && defs[|defs| - 1] == shared.name
      && forall i :: 0 <= i < |defs| - 1 ==> defs[i].config.name != "NAME"
  {
    NameUnwrittenBeforeLast(shared, modules);
    ScriptKeyedByName(shared, modules);
    NewKeyGoesLast(ScriptBeforeName(shared, modules), Entry("NAME", shared.name));
  }

  /**
   * Before APPLICATION, the script writes every application token's name
   * and, when no application token is named so, never "APPLICATION".
   */
  lemma KeysBeforeApplication(shared: SharedTokens, modules: TokenModules)
    requires "APPLICATION" !in Names(modules.applicationTokens)
    ensures "APPLICATION" !in AssignedKeys(BeforeApplication(shared, modules))
    ensures Names(modules.applicationTokens) <= AssignedKeys(BeforeApplication(shared, modules))
  {
    LiteralsAreExtendable(shared, BooleanToken(shared));
    var log := [Entry("BOOLEAN", BooleanToken(shared))];
    UnwrittenByLiterals(shared, CommentLiterals, "APPLICATION");
    UnwrittenByConcat(log, ConfigEntries(shared, CommentLiterals), "APPLICATION");
    log := log + ConfigEntries(shared, CommentLiterals);
    UnwrittenByLiterals(shared, ApplicationConstantLiterals, "APPLICATION");
    UnwrittenByConcat(log, ConfigEntries(shared, ApplicationConstantLiterals), "APPLICATION");
    log := log + ConfigEntries(shared, ApplicationConstantLiterals);
    AssignedKeysConcat(log, EntriesOf(modules.applicationTokens));
  }

  /** One application token's registration precedes that of APPLICATION. */
  lemma ApplicationTokenPrecedesApplication(shared: SharedTokens, modules: TokenModules, t: TokenType)
    requires "APPLICATION" !in Names(modules.applicationTokens)
    requires t in modules.applicationTokens
    ensures var r := Replay(Empty, JdlScript(shared, modules));
      exists i, j :: 0 <= i < j < |r| && r[i].key == t.config.name && r[j].key == "APPLICATION"
  {
    ScriptSections(shared, modules);
    KeysBeforeApplication(shared, modules);
    AssignedEarlierListedEarlier(BeforeApplication(shared, modules), ApplicationEntry(shared),
      AfterApplication(shared, modules) + [Entry("NAME", shared.name)], t.config.name);
  }

  /**
   * APPLICATION is listed after every application token in the token list
   * given to the lexer; line 96 requires this because `applicationType`
   * shares its prefix.
   */
  lemma ApplicationFollowsApplicationTokens(shared: SharedTokens, modules: TokenModules)
    requires shared.name.config.name == "NAME"
    requires "APPLICATION" !in Names(modules.applicationTokens)
    ensures var defs := LexerDefinition(shared, modules);
      forall t :: t in modules.applicationTokens ==>
        exists i, j :: (0 <= i < j < |defs|
          && defs[i].config.name == t.config.name && defs[j].config.name == "APPLICATION")
  {
    RegistryKeyedByName(shared, modules);
    var defs := LexerDefinition(shared, modules);
    forall t | t in modules.applicationTokens
      ensures exists i, j :: (0 <= i < j < |defs|
        && defs[i].config.name == t.config.name && defs[j].config.name == "APPLICATION")
    {
      ApplicationTokenPrecedesApplication(shared, modules, t);
      KeyOrderIsNameOrder(Replay(Empty, JdlScript(shared, modules)), t.config.name, "APPLICATION");
    }
  }

  /**
   * The top level of the lexer module: the registrations of lines 55-174
   * in their order, then `Object.values(tokens)` (line 179), the token list
   * given to the lexer.
   */
  method BuildJdlTokens(shared: SharedTokens, modules: TokenModules)
    returns (tokens: TokenRegistry, lexerDefinition: seq<TokenType>)
    ensures tokens.assignments == JdlScript(shared, modules)
    ensures lexerDefinition == Values(tokens.Contents()) == LexerDefinition(shared, modules)
  {
    LiteralsAreExtendable(shared, BooleanToken(shared));
    tokens := new TokenRegistry();
    var boolean := CreateTokenFromLiteral(shared, tokens, BooleanLiteral);
    assert tokens.assignments == [Entry("BOOLEAN", BooleanToken(shared))];
    var configKey := modules.applicationCategory;
    var deploymentKey := modules.deploymentCategory;
    CreateTokensFromLiterals(shared, tokens, CommentLiterals);
    CreateTokensFromLiterals(shared, tokens, ApplicationConstantLiterals);
    RegisterModuleTokens(modules.applicationTokens, tokens);
    var application := CreateTokenFromLiteral(shared, tokens, ApplicationLiteral);
    var serviceDiscoveryType := CreateTokenFromLiteral(shared, tokens, ServiceDiscoveryLiteral(configKey, deploymentKey));
    RegisterModuleTokens(modules.deploymentTokens, tokens);
    CreateTokensFromLiterals(shared, tokens, EntityLiterals(boolean));
    RegisterModuleTokens(modules.relationshipTypeTokens, tokens);
    CreateTokensFromLiterals(shared, tokens, OptionLiterals);
    RegisterModuleTokens(modules.minMaxTokens, tokens);
    CreateTokensFromLiterals(shared, tokens, ValueAndPunctuationLiterals);
    // the identifier token goes after all the keywords
    tokens.Put("NAME", shared.name);
    lexerDefinition := Values(tokens.Contents());
  }
}
