# JDL lexer token registration, modelled in Dafny

The JDL lexer of jhipster-core (`lib/dsl/lexer/lexer.js`) builds its token
list in two steps:

- `createTokenFromConfig` normalises a token configuration object in place:
  - a keyword gets the identifier token NAME as its longer alternative;
  - a keyword joins the KEYWORD category;
  - a string pattern gets a quoted diagram label.

  It then creates the token type and stores it in the module-level `tokens`
  object under the configuration's name.
- The module body is a fixed script of such calls. It also copies in the
  token lists of four sub-modules (application, deployment, relationship
  type, min/max) and finally assigns `tokens.NAME = NAME`.
  `Object.values(tokens)`, in key-insertion order, is the token list handed
  to the lexer.

The model has four modules:

- `TokenTypes` (`token_types.dfy`) holds the values: patterns (a string, a
  regular expression kept as its source text, or `Lexer.NA`), configuration
  records and token types. A token type records the configuration it was
  created from.
- `Registry` (`registry.dfy`) is the `tokens` object. It is an ordered map:
  assigning a new key appends it, and re-assigning a present key replaces
  its value in place. The class `TokenRegistry` keeps the assignments made
  to the object, in order. `Contents()` is the object they build from `{}`
  (`Replay`), and `Values` is `Object.values`.
- `CreateToken` (`create_token.dfy`) holds the configuration object, a
  class whose fields are updated in place, and `createTokenFromConfig` as a
  method. The method is proved against `Normalise`, the specification of
  the normalised record.
- `JdlLexer` (`lexer.dfy`) holds the registration script:
  - the object literals of each run of consecutive calls;
  - the `forEach` copy loops;
  - `BuildJdlTokens`, the module body.

  `JdlScript` is the list of all the assignments the script makes.
  `LexerDefinition` is `Object.values` of the object they build. The
  ordering properties are proved about these.

`namePattern`, NAME and KEYWORD come from the shared-tokens module, and
the token lists come from the sub-modules. None of these is part of this
model, so they are parameters (`SharedTokens`, `TokenModules`).
`namePattern.test` is an arbitrary predicate on strings.

The model follows the code on three points where a tokenizer design might
expect otherwise:

- A repeated name silently overwrites the earlier token. There is no
  duplicate-name error.
- Categories are a missing value, a bare token (line 38), or a list that
  grows with `push` (line 40). They are not a set that is always present.
- Only string patterns get a derived label.

## Model

| member | source | states |
|---|---|---|
| Registry.Assign | node_modules/jhipster-core/lib/dsl/lexer/lexer.js:51 | `tokens[k] = v`: `k` now holds `v` and every other key holds what it held before; the object grows by one exactly when `k` was new; every key already present keeps its position; tokens stored under their own names stay so |
| Registry.AssignNewKey | node_modules/jhipster-core/lib/dsl/lexer/lexer.js:51 | assigning a key that is not present appends it last |
| Registry.AssignExistingKey | node_modules/jhipster-core/lib/dsl/lexer/lexer.js:50-52 | re-assigning a present name replaces its entry in place; there is no duplicate-name failure |
| Registry.AssignKeepsKeysDistinct | node_modules/jhipster-core/lib/dsl/lexer/lexer.js:51 | after an assignment every key is still listed once |
| Registry.GetFindsEntry | node_modules/jhipster-core/lib/dsl/lexer/lexer.js:51 | with keys listed once, looking up a listed key yields the value listed with it |
| Registry.ListedKeyIsPresent | node_modules/jhipster-core/lib/dsl/lexer/lexer.js:51 | every listed key is present in the object |
| Registry.PresentKeyIsListed | node_modules/jhipster-core/lib/dsl/lexer/lexer.js:51 | every present key is listed, with the value a lookup yields |
| Registry.ValuesListStoredTokens | node_modules/jhipster-core/lib/dsl/lexer/lexer.js:179 | `Object.values` lists, position by position, the token stored under each key, and contains every stored token |
| Registry.ValuesAfterNewKey | node_modules/jhipster-core/lib/dsl/lexer/lexer.js:51 | assigning a new key appends its value to `Object.values` |
| Registry.ValuesAfterExistingKey | node_modules/jhipster-core/lib/dsl/lexer/lexer.js:51 | re-assigning a key replaces its value in place in `Object.values` |
| Registry.Replay | node_modules/jhipster-core/lib/dsl/lexer/lexer.js:27 | assignments of tokens under their own names, made to an object that keeps tokens under their own names, keep it so |
| Registry.ReplayPresentKeys | node_modules/jhipster-core/lib/dsl/lexer/lexer.js:27-174 | after a series of assignments the present keys are the old ones and the assigned ones |
| Registry.ReplayOneMore | node_modules/jhipster-core/lib/dsl/lexer/lexer.js:51 | one more assignment in the series is one more `tokens[k] = v` on the object built so far |
| Registry.ReplayConcat | node_modules/jhipster-core/lib/dsl/lexer/lexer.js:55-174 | running two parts of the script one after the other is running them as one |
| Registry.ReplayStoresLastAssignment | node_modules/jhipster-core/lib/dsl/lexer/lexer.js:51 | after a series of assignments, a key holds the value of the last assignment to it |
| Registry.ReplayKeepsOthers | node_modules/jhipster-core/lib/dsl/lexer/lexer.js:51 | keys no assignment of the series writes to keep their values |
| Registry.ReplayKeepsOrder | node_modules/jhipster-core/lib/dsl/lexer/lexer.js:51 | a series of assignments never shrinks the object and never moves a key already present |
| Registry.ReplayKeepsKeysDistinct | node_modules/jhipster-core/lib/dsl/lexer/lexer.js:51 | a series of assignments keeps every key listed once |
| Registry.AssignedEarlierListedEarlier | node_modules/jhipster-core/lib/dsl/lexer/lexer.js:51 | keys are listed in the order of their first assignment: a key assigned before a new key stays before it, whatever follows |
| Registry.KeyOrderIsNameOrder | node_modules/jhipster-core/lib/dsl/lexer/lexer.js:179 | with tokens stored under their own names, `Object.values` lists the token names in key order |
| Registry.Values | node_modules/jhipster-core/lib/dsl/lexer/lexer.js:179 | `Object.values`: one value per key, in the order the keys were first assigned |
| Registry.NewKeyGoesLast | node_modules/jhipster-core/lib/dsl/lexer/lexer.js:173-174 | a key no earlier assignment wrote goes last in `Object.values`, and no earlier value bears its name |
| Registry.ReplayGrowsByAtMostLog | node_modules/jhipster-core/lib/dsl/lexer/lexer.js:51 | each assignment adds at most one key |
| Registry.EntriesOf | node_modules/jhipster-core/lib/dsl/lexer/lexer.js:92-94 | a `forEach` copy loop assigns each token, in list order, under its own name and unchanged |
| Registry.TokenRegistry.constructor | node_modules/jhipster-core/lib/dsl/lexer/lexer.js:27 | `const tokens = {}`: no assignments yet, the empty object |
| Registry.TokenRegistry.Put | node_modules/jhipster-core/lib/dsl/lexer/lexer.js:51 | an assignment to the object is recorded after the earlier ones, and the object becomes `Assign` of the old object |
| CreateToken.IsKeyword | node_modules/jhipster-core/lib/dsl/lexer/lexer.js:34 | the keyword test: the pattern is a string and `namePattern.test` accepts it |
| CreateToken.Truthy | node_modules/jhipster-core/lib/dsl/lexer/lexer.js:45 | `!config.label` is false exactly for a label that is present and not '' |
| CreateToken.CanExtendCategories | node_modules/jhipster-core/lib/dsl/lexer/lexer.js:36-40 | the condition under which the `push` of line 40 cannot throw: a keyword's categories are missing or a list, never one bare token |
| CreateToken.QuotedLabel | node_modules/jhipster-core/lib/dsl/lexer/lexer.js:46 | the label is the pattern between two single quotes, from which the pattern can be read back |
| CreateToken.Normalise | node_modules/jhipster-core/lib/dsl/lexer/lexer.js:29-50 | `name`, `pattern` and `group` reach `createToken` unchanged; a configuration whose pattern is not a string is left exactly as it was |
| CreateToken.KeywordFallsBackToName | node_modules/jhipster-core/lib/dsl/lexer/lexer.js:34-35 | a string pattern accepted by `namePattern` gets NAME as its longer alternative |
| CreateToken.KeywordJoinsKeywordCategory | node_modules/jhipster-core/lib/dsl/lexer/lexer.js:36-41 | a keyword without categories gets the bare token KEYWORD; one with a list gets KEYWORD appended after the earlier categories, kept in their order |
| CreateToken.NonKeywordKeepsAlternativeAndCategories | node_modules/jhipster-core/lib/dsl/lexer/lexer.js:34 | a regular expression, `Lexer.NA`, or a string that `namePattern` rejects keeps its longer alternative and categories |
| CreateToken.LabelDerivation | node_modules/jhipster-core/lib/dsl/lexer/lexer.js:45-47 | a string pattern without a label (missing or '') is labelled with the quoted pattern; a present label is never overwritten; a non-string pattern derives no label |
| CreateToken.TrueJoinsBooleanThenKeyword | node_modules/jhipster-core/lib/dsl/lexer/lexer.js:113 | TRUE, declared in `[BOOLEAN]`, ends in `[BOOLEAN, KEYWORD]` with NAME as longer alternative and label `'true'` |
| CreateToken.StarIsNotAKeyword | node_modules/jhipster-core/lib/dsl/lexer/lexer.js:129 | STAR, whose `'*'` `namePattern` rejects, only gains its label |
| CreateToken.TokenConfig.constructor | node_modules/jhipster-core/lib/dsl/lexer/lexer.js:89 | an object literal at a call site holds the properties written in it |
| CreateToken.CreateTokenFromConfig | node_modules/jhipster-core/lib/dsl/lexer/lexer.js:29-53 | the configuration object becomes `Normalise` of what it was; the returned token records it; `tokens[config.name]` becomes that token and every other entry is unchanged |
| CreateToken.CreateTokenFromLiteral | node_modules/jhipster-core/lib/dsl/lexer/lexer.js:89-90 | a call on an object literal returns the token of the normalised literal and records its assignment under the literal's name |
| JdlLexer.ConfigEntries | node_modules/jhipster-core/lib/dsl/lexer/lexer.js:128-145 | a run of calls assigns, in order, each literal's normalised token under the literal's name |
| JdlLexer.CreateTokensFromLiterals | node_modules/jhipster-core/lib/dsl/lexer/lexer.js:128-145 | consecutive calls on object literals record exactly their `ConfigEntries` after the earlier assignments |
| JdlLexer.RegisterModuleTokens | node_modules/jhipster-core/lib/dsl/lexer/lexer.js:92-94 | the copy loops (also lines 106-108, 123-125, 147-149) store each sub-module token under its own name, unchanged, in list order |
| JdlLexer.LiteralsAreExtendable | node_modules/jhipster-core/lib/dsl/lexer/lexer.js:56-171 | no object literal of the script, SERVICE_DISCOVERY_TYPE (lines 100-104) and TRUE/FALSE included, gives its categories as one bare token, so no `push` of line 40 can fail |
| JdlLexer.JdlScript | node_modules/jhipster-core/lib/dsl/lexer/lexer.js:55-174 | the assignments the module body makes: 47 `createTokenFromConfig` calls, one per token of the four sub-module lists, and NAME last |
| JdlLexer.LexerDefinition | node_modules/jhipster-core/lib/dsl/lexer/lexer.js:179 | the lexer's input, `Object.values(tokens)`: at least one token (NAME) and at most one per assignment |
| JdlLexer.ScriptSections | node_modules/jhipster-core/lib/dsl/lexer/lexer.js:89-104 | the script is what precedes APPLICATION, then APPLICATION, then the rest |
| JdlLexer.ScriptKeyedByName | node_modules/jhipster-core/lib/dsl/lexer/lexer.js:56-171 | every assignment before NAME stores a token under the token's own name |
| JdlLexer.RegistryKeyedByName | node_modules/jhipster-core/lib/dsl/lexer/lexer.js:56-174 | once the script has run, every token is stored under its own name |
| JdlLexer.NameUnwrittenBeforeLast | node_modules/jhipster-core/lib/dsl/lexer/lexer.js:56-171 | no assignment before line 174 writes the key NAME |
| JdlLexer.NameComesLast | node_modules/jhipster-core/lib/dsl/lexer/lexer.js:173-179 | NAME is the last token given to the lexer and no earlier token is named NAME, so every keyword precedes the identifier token |
| JdlLexer.KeysBeforeApplication | node_modules/jhipster-core/lib/dsl/lexer/lexer.js:56-94 | before APPLICATION the script writes every application token's name and never APPLICATION |
| JdlLexer.ApplicationTokenPrecedesApplication | node_modules/jhipster-core/lib/dsl/lexer/lexer.js:92-97 | each application token's key is listed before the key APPLICATION |
| JdlLexer.ApplicationFollowsApplicationTokens | node_modules/jhipster-core/lib/dsl/lexer/lexer.js:96-97 | APPLICATION is listed after every application token in the token list given to the lexer; line 96 requires this because `applicationType` shares its prefix |
| JdlLexer.BuildJdlTokens | node_modules/jhipster-core/lib/dsl/lexer/lexer.js:55-179 | the module body makes exactly the assignments of `JdlScript`, in order, and hands the lexer `LexerDefinition`, the values of the object they build |

## Left out

- Chevrotain's `createToken` and `Lexer` are left out: their internals, the scanning algorithm (longest match, the longer-alternative retry, skipped groups) and the `ensureOptimizations` validation (lines 20, 50, 179). The library is not part of this model. A token type only records the configuration it was created from, and the lexer's input is the token list.
- Regular-expression semantics are not modelled. Patterns are kept as their source text, and nothing about what they match is stated.
- The definitions of `namePattern`, NAME and KEYWORD, and the contents of the sub-module token lists, are not part of this model. They are parameters. `namePattern.test` is a pure predicate, so the `lastIndex` state of a global regular expression is not modelled.
- `Object.values` lists integer-like keys first, in numeric order. This is not modelled: no token name written in the script is integer-like, and the names of the four sub-module token lists are assumed not to be integer-like either.
- Configuration objects are modelled as values copied into each token type. The aliasing is not modelled: a categories array shared between two configuration objects, or later mutation of a configuration after `createToken`.
- A run of consecutive `createTokenFromConfig` statements is modelled as a loop over their object literals (`CreateTokensFromLiterals`). Statement by statement, the effect is the same.
- Lexical errors, position tracking and duplicate-name errors are not modelled. The code has no such checks.
- The Angular application modules and the Spring Data repository interface of the generated application are left out. They contain no computation of this kind.
- CreateToken.CreateTokenFromConfig: requires that a keyword's categories are not one bare token. Pushing onto a bare token would throw a TypeError. No call site of the script does that (`LiteralsAreExtendable`), so the throwing path is not modelled.
- CreateToken.Normalise: has the same requirement as `CreateTokenFromConfig`, for the same reason.
- JdlLexer.NameComesLast: assumes that no sub-module token is named NAME. Otherwise the final `tokens.NAME = NAME` would re-assign an existing key in place rather than append it.
- JdlLexer.ApplicationFollowsApplicationTokens: assumes that NAME is named NAME and that no application token is named APPLICATION. Otherwise APPLICATION would be re-assigned in place.
