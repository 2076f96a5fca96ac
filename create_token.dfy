/**
 * `createTokenFromConfig` of the JDL lexer (jhipster-core,
 * lib/dsl/lexer/lexer.js): every keyword or punctuation token is declared
 * by a configuration object that this function normalises in place (a
 * keyword falls back to the identifier token and joins the KEYWORD
 * category; a string pattern gets a label) before the tokenizer library
 * turns it into a token type, which is then stored in the module-level
 * `tokens` object under the configuration's name.
 */
module CreateToken {
  import opened Wrappers
  import opened TokenTypes
  import opened Registry

  /**
   * What the shared-tokens module provides: the identifier token `NAME`,
   * the category token `KEYWORD`, and the identifier pattern
   * `namePattern`, of which only its `test` is used, as a predicate on
   * strings.
   */
  datatype SharedTokens = SharedTokens(name: TokenType, keyword: TokenType, namePattern: string -> bool)

  /** A pattern is a keyword when it is a string accepted by the identifier pattern. */
  predicate IsKeyword(shared: SharedTokens, p: Pattern) {
    p.Literal? && shared.namePattern(p.text)
  }

  /** JavaScript truthiness of an optional string: a missing string and '' are both false. */
  predicate Truthy(s: Option<string>) {
    s.Some? && s.value != ""
  }

  /**
   * `push` exists only on arrays: the categories of a keyword config must
   * be missing or an array, never one bare token.
   */
  predicate CanExtendCategories(shared: SharedTokens, c: Config) {
    IsKeyword(shared, c.pattern) ==> !c.categories.Single?
  }

  /** The diagram label of a string pattern: the pattern in single quotes, from which the pattern can be read back. */
  function QuotedLabel(text: string): (quoted: string)
    ensures |quoted| == |text| + 2
    ensures quoted[0] == '\'' && quoted[|quoted| - 1] == '\''
    ensures quoted[1..|quoted| - 1] == text
  {
    "'" + text + "'"
  }

  /**
   * The configuration as `createTokenFromConfig` leaves it. Only
   * `longerAlt`, `categories` and the label may change; a config whose
   * pattern is not a string is left exactly as it was.
   */
  function Normalise(shared: SharedTokens, c: Config): (r: Config)
    requires CanExtendCategories(shared, c)
    ensures r.name == c.name && r.pattern == c.pattern && r.group == c.group
    ensures !c.pattern.Literal? ==> r == c
  {
    var keyed :=
      if IsKeyword(shared, c.pattern) then
        c.(longerAlt := Some(shared.name),
           categories := if c.categories.Absent? then Single(shared.keyword)
                         else Many(c.categories.list + [shared.keyword]))
      else c;
    if c.pattern.Literal? && !Truthy(keyed.labelText) then
      keyed.(labelText := Some(QuotedLabel(c.pattern.text)))
    else keyed
  }

  /** A keyword's longer alternative becomes the identifier token, whatever it was before. */
  lemma KeywordFallsBackToName(shared: SharedTokens, c: Config)
    requires CanExtendCategories(shared, c) && IsKeyword(shared, c.pattern)
    ensures Normalise(shared, c).longerAlt == Some(shared.name)
  {
  }

  /**
   * A keyword joins the KEYWORD category: a config without categories gets
   * KEYWORD itself, and an existing list gets KEYWORD appended after the
   * categories it already had, in their order.
   */
  lemma KeywordJoinsKeywordCategory(shared: SharedTokens, c: Config)
    requires CanExtendCategories(shared, c) && IsKeyword(shared, c.pattern)
    ensures c.categories.Absent? ==> Normalise(shared, c).categories == Single(shared.keyword)
    ensures c.categories.Many? ==>
      var after := Normalise(shared, c).categories;
      && after.Many?
      && |after.list| == |c.categories.list| + 1
      && after.list[..|c.categories.list|] == c.categories.list
      && after.list[|c.categories.list|] == shared.keyword
  {
    var after := Normalise(shared, c).categories;
    if c.categories.Many? {
      assert after.list == c.categories.list + [shared.keyword];
    }
  }

  /**
   * A config that is not a keyword (a regular expression, `Lexer.NA`, or a
   * string the identifier pattern rejects) keeps its longer alternative and
   * its categories.
   */
  lemma NonKeywordKeepsAlternativeAndCategories(shared: SharedTokens, c: Config)
    requires !IsKeyword(shared, c.pattern)
    ensures Normalise(shared, c).longerAlt == c.longerAlt
    ensures Normalise(shared, c).categories == c.categories
  {
  }

  /**
   * A string pattern without a label is labelled with the quoted pattern; a
   * label that is present (not missing and not '') is never overwritten;
   * a pattern that is not a string derives no label.
   */
  lemma LabelDerivation(shared: SharedTokens, c: Config)
    requires CanExtendCategories(shared, c)
    ensures c.pattern.Literal? && !Truthy(c.labelText) ==>
      Normalise(shared, c).labelText == Some(QuotedLabel(c.pattern.text))
    ensures Truthy(c.labelText) ==> Normalise(shared, c).labelText == c.labelText
    ensures !c.pattern.Literal? ==> Normalise(shared, c).labelText == c.labelText
  {
  }

  /** Example: TRUE, declared in the BOOLEAN category, becomes a member of BOOLEAN and then of KEYWORD. */
  lemma TrueJoinsBooleanThenKeyword(shared: SharedTokens, boolean: TokenType)
    requires shared.namePattern("true")
    ensures
      var r := Normalise(shared, Config("TRUE", Literal("true"), categories := Many([boolean])));
      && r.categories == Many([boolean, shared.keyword])
      && r.longerAlt == Some(shared.name)
      && r.labelText == Some("'true'")
  {
    assert QuotedLabel("true") == "'true'";
  }

  /** Example: STAR, whose pattern '*' the identifier pattern rejects, only gets its label. */
  lemma StarIsNotAKeyword(shared: SharedTokens)
    requires !shared.namePattern("*")
    ensures Normalise(shared, Config("STAR", Literal("*"))) == Config("STAR", Literal("*"), labelText := Some("'*'"))
  {
    assert QuotedLabel("*") == "'*'";
  }

  /** A token configuration object, which `createTokenFromConfig` updates in place. */
  class TokenConfig {
    var name: string
    var pattern: Pattern
    var group: Option<Group>
    var longerAlt: Option<TokenType>
    var categories: Categories
    var labelText: Option<string>

    /** The object literal written at a call site. */
    constructor (literal: Config)
      ensures Record() == literal
    {
      name := literal.name;
      pattern := literal.pattern;
      group := literal.group;
      longerAlt := literal.longerAlt;
      categories := literal.categories;
      labelText := literal.labelText;
    }

    /** The object's current properties. */
    function Record(): Config
      reads this
    {
      Config(name, pattern, group, longerAlt, categories, labelText)
    }
  }

  /**
   * `createTokenFromConfig(config)`: tags a keyword config, derives a label,
   * creates the token type from the updated config, and stores it in
   * `tokens` under the config's name, replacing any token of that name.
   */
  method CreateTokenFromConfig(shared: SharedTokens, config: TokenConfig, tokens: TokenRegistry)
    returns (newToken: TokenType)
    requires CanExtendCategories(shared, config.Record())
    modifies config, tokens
    ensures config.Record() == Normalise(shared, old(config.Record()))
    ensures newToken == TokenType(config.Record())
    ensures tokens.assignments == old(tokens.assignments) + [Entry(config.name, newToken)]
    ensures tokens.Contents() == Assign(old(tokens.Contents()), config.name, newToken)
  {
    if config.pattern.Literal? && shared.namePattern(config.pattern.text) {
      config.longerAlt := Some(shared.name);
      if config.categories.Absent? {
        config.categories := Single(shared.keyword);
      } else {
        config.categories := Many(config.categories.list + [shared.keyword]);
      }
    }
    if config.pattern.Literal? && !Truthy(config.labelText) {
      config.labelText := Some(QuotedLabel(config.pattern.text));
    }
    newToken := TokenType(config.Record());
    tokens.Put(config.name, newToken);
  }

  /** A call `createTokenFromConfig({ ... })` on a fresh object literal. */
  method CreateTokenFromLiteral(shared: SharedTokens, tokens: TokenRegistry, literal: Config)
    returns (newToken: TokenType)
    requires CanExtendCategories(shared, literal)
    modifies tokens
    ensures newToken == TokenType(Normalise(shared, literal))
    ensures tokens.assignments == old(tokens.assignments) + [Entry(literal.name, newToken)]
  {
    var config := new TokenConfig(literal);
    newToken := CreateTokenFromConfig(shared, config, tokens);
  }
}
