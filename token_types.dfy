/**
 * The values exchanged with the tokenizer library: token patterns, the
 * configuration record a token is declared with, and the token type that
 * the library's `createToken` builds from such a record.
 */
module TokenTypes {
  import opened Wrappers

  /**
   * A token pattern. Only string patterns are inspected by the registration
   * code; regular expressions are kept opaque (their source text serves as
   * an identity), and `Lexer.NA`, the "no pattern" marker of abstract
   * category tokens, is a regular expression as well, hence not a string.
   */
  datatype Pattern =
    | Literal(text: string)
    | RegExp(source: string)
    | NotApplicable

  /** The only token group used here: `Lexer.SKIPPED`. */
  datatype Group = Skipped

  /**
   * The `categories` property of a configuration. Callers write an array
   * (`Many`) or leave it out (`Absent`); the registration code itself may
   * store one bare token in it (`Single`).
   */
  datatype Categories =
    | Absent
    | Single(category: TokenType)
    | Many(list: seq<TokenType>)

  /**
   * A token configuration object, as a value; omitted properties default to
   * absent. `labelText` is the object's `label` property (`label` is a
   * Dafny keyword).
   */
  datatype Config = Config(
    name: string,
    pattern: Pattern,
    group: Option<Group> := None,
    longerAlt: Option<TokenType> := None,
    categories: Categories := Absent,
    labelText: Option<string> := None)

  /**
   * A token type as returned by the library's `createToken`: an opaque
   * value that records the configuration it was created from.
   */
  datatype TokenType = TokenType(config: Config)
}
