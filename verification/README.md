# Verification model of Felsen MCP Server Postgres

A Dafny model of the four parts of the server that carry its promises, with
proofs about every text, every run and every reachable state.

- **SQL guard** (`Scan`, `Lexer`, `Config`, `Guard`, `Script`): the statement
  splitter, the comment stripper and the tokenizer as the loops they are, each
  proved equal to an automaton on texts; the token-level policy check of one
  statement; the validation of a script. `StripLaws`, `SplitLaws`, `Commute`,
  `LexLaws`, `TokenLaws`, `LimitLaws`, `GuardLaws`, `CaseLaws` and `ScriptCase`
  relate these to each other. `ScanFacts`, `LexFacts`, `Readings`, `PolicyLaws` and
  `ScriptErrors` say what they do on the runes and tokens alone, construct by
  construct. `FromLists` says which lists of tables the policy check sees.
  `Examples` has queries, a deletion and scripts that are accepted, so what the
  laws ask of accepted texts can be met.
- **OAuth provider** (`Authn`, `Scopes`, `OAuth`, `OAuthRuns`,
  `OAuthProvider`): client registration, the code grant with PKCE, refresh, and
  bearer authentication as a state machine over interleaved requests. A code
  exchange is three steps (the request, the locked lookup and deletion, the
  answer), so other requests may come between them. `OAuthRequests` says what is
  asked of the fields of each request, and what it is given. `OAuthLaws` holds the
  theorems over runs, `OAuthGrants` says exactly when grants and tokens are
  honoured, and `OAuthTraces` where every token comes from.
- **Store** (`Store`): a class that owns the committed database and the schema
  cache, and the same operations as one step function. `StatementLaws`,
  `StoreLaws` and `CacheLaws` hold the theorems, `StoreExamples` a script that
  passes its limit. `SearchPath` relates the tables that the guard checks to those
  that a statement runs on under the search path that the store sets.
- **Search** (`Search`): the bounded, deduplicating scan over connections,
  schemas, tables and columns; `SearchLaws` has the list that it is a cut of.

`Text` has runes, white space, trimming and ASCII case folding; `Outcomes` has
the option and result types. `dafny verify dfyconfig.toml` checks everything.

## What the code does not meet

- The splitter reads quotes differently from the stripper and the tokenizer: it
  ignores backslashes, and it flips its literal flag before it looks for a
  doubled quote. So splitting and stripping are proved to commute on scripts that
  keep the two in step (`Commute.InStep`), which every script without backslashes
  and adjacent single quotes does, and not on all. `EscapedQuoteDisagrees`,
  `EmptyLiteralDisagrees` and `DoubledQuoteDisagrees` give scripts out of step,
  and `BadCutFails` shows that a cut inside a literal or a block comment always
  makes a script fail. `PiecewiseStripping` says exactly when stripping piece by
  piece is stripping the whole.
- The rows of a script are added up in 64 bits. `ScriptIsAllOrNothing` gives the
  exact rule for commits with that addition. The intended rule, that of the true
  sum, holds of a run exactly when the script is not committed with a sum past 64
  bits (`ScriptIsAtomic`), and of a script that nothing else stops, whatever is
  counted, exactly when it has at most one DML statement or the limit is zero
  (`LimitIsKeptExactly`). With two, `OverflowPassesLimit` gives row counts with
  which it passes the limit and is committed; `OverflowIsCommitted` has such a
  script.
- The cache key joins schema and table with a dot. It tells allowed tables apart
  exactly when no configured schema is a wildcard or is another one followed by
  a dot (`KeysAreInjectiveIff`); otherwise the cache shows (`CollidingKeysShow`).
- A quoted table name with a dot in it, or with a double quote or white space at
  an end, is checked against the policy under another name.
  `ReferenceIsRecovered` says exactly which names survive, and
  `DottedNameIsMisread` gives the queries of dotted names that are accepted as
  tables of the wrong schema.
- For a name without a schema the guard takes public, but the statement runs under
  the search path of the store. `CheckedIsRun` says exactly when the two are the
  same table: the name is plain, and its schema is written or the path leads to
  public; `ScopeIsExact` says which paths always do. Where the store sets the path
  the schema is an allowed one all the same, or one of the system's
  (`ScopedNamesStayAllowed`), but a DML policy for one table is not:
  `PolicyIsMissed` has a deletion that is accepted under the policy of `public.t`
  and runs on the table of another schema.
- A list of tables is looked for only up to the next join or parenthesis. So
  `FromHasOneItem` gives one table for a FROM clause exactly when no comma of the
  clause comes after such a place, which `JoinlessHasOneItem` turns into a
  condition on the tokens; `ListAfterOnIsMissed` has the queries
  `select * from t join u on c, s.x`, which are accepted with `t` and `u` alone.
- The grant types that a client registers for are kept and never looked at: the
  rule that only clients registered for it are refreshed holds of a request exactly
  when its client is one of them or it is refused anyway
  (`RefreshIgnoresGrantTypes`), and `CodeOnlyClientIsRefreshed` has the others.

## Model

| member | source | states |
|---|---|---|
| `Scan.SplitStatements` | internal/sqlguard/parser_nocgo.go:9-78 | the loop with its four flags, builder and skips returns `Split` of the script: the pieces between the semicolons its automaton sees in code, trimmed, blank ones dropped |
| `Scan.AddStatement` | internal/sqlguard/parser_nocgo.go:80-85 | a statement is kept trimmed, and dropped when blank |
| `Scan.StripSQLComments` | internal/sqlguard/sqlguard.go:255-353 | the stripping loop returns `StripComments`: the text with comments erased, or which quote or comment is left open |
| `ScanFacts.CommentIsErased` | internal/sqlguard/sqlguard.go:270-302 | a line comment ends at the first newline and a block comment at the first `*/`: stripping writes blanks and the newlines for it and goes on with what follows; for the splitter it is part of its piece |
| `ScanFacts.CommentWithoutEnd` | internal/sqlguard/sqlguard.go:343-345 | a text may end in a line comment, not in a block comment; neither is cut |
| `ScanFacts.QuotedIsKept` | internal/sqlguard/sqlguard.go:303-331 | a literal, of runes, escapes and doubled quotes, and a quoted name are kept whole, and stripping goes on after their quote |
| `ScanFacts.QuotedWithoutEnd` | internal/sqlguard/sqlguard.go:346-351 | without it they are refused, each with its own error |
| `ScanFacts.QuotedIsNotCut` | internal/sqlguard/parser_nocgo.go:55-68 | the splitter closes quotes at the next quote, whatever is before it, but two quotes open a literal and go on; nothing in them is cut |
| `ScanFacts.OpenIsNotCut` | internal/sqlguard/parser_nocgo.go:55-68 | nor in those that are not closed |
| `ScanFacts.OrdinaryIsKept` | internal/sqlguard/parser_nocgo.go:69-74 | any other rune is kept by both, and the semicolon cuts |
| `Lexer.Tokenize` | internal/sqlguard/sqlguard.go:469-569 | the tokenizer's loop returns `Lex`: the tokens of the text, or the first thing in it that is refused |
| `Lexer.TokenAt` | internal/sqlguard/sqlguard.go:484-566 | the branches of the tokenizer read exactly one lexeme of the text at their index |
| `Lexer.SkipLiteral` | internal/sqlguard/sqlguard.go:496-519 | the literal loop finds the closing quote past escapes and doubled quotes, or that there is none |
| `Lexer.SkipQuoted` | internal/sqlguard/sqlguard.go:523-543 | the identifier loop finds the closing quote and the name with doubled quotes halved |
| `Lexer.SkipRun` | internal/sqlguard/sqlguard.go:547-563 | an identifier, number or parameter goes on as long as its runes do |
| `LexFacts.IdentifierIsRead` | internal/sqlguard/sqlguard.go:547-555 | a letter or underscore with all letters, digits, underscores and dollar signs that follow is one identifier as it is spelled |
| `LexFacts.NumberIsRead` | internal/sqlguard/sqlguard.go:556-564 | a digit with all digits and dots that follow is one number |
| `LexFacts.ParameterIsRead` | internal/sqlguard/sqlguard.go:484-495 | a dollar sign with all digits that follow is one symbol, and is refused without any |
| `LexFacts.NameIsRead` | internal/sqlguard/sqlguard.go:523-546 | a name between double quotes, its own doubled, is one quoted identifier of that name |
| `LexFacts.LiteralIsRead` | internal/sqlguard/sqlguard.go:496-522 | a literal, of runes, escapes and doubled quotes, is one string token with its quotes |
| `LexFacts.OpenIsRefused` | internal/sqlguard/sqlguard.go:517-543 | without their closing quote both are refused |
| `LexFacts.RuneIsRead` | internal/sqlguard/sqlguard.go:474-483 | white space is skipped, a comment is refused, and any other rune is a symbol of its own |
| `StripLaws.StrippingIsErasure` | internal/sqlguard/sqlguard.go:251-353 | in a stripped text every rune of a comment but a newline has become a space and every other rune stands where it stood; stripping it again succeeds and changes nothing |
| `StripLaws.StripConcat` | internal/sqlguard/sqlguard.go:255-353 | stripping can be cut in two before any rune that is in no quote, comment or escape mark: state and output compose |
| `SplitLaws.SplitIsLossless` | internal/sqlguard/parser_nocgo.go:18-78 | the untrimmed pieces joined by semicolons are the script |
| `SplitLaws.CutsAreCompositional` | internal/sqlguard/parser_nocgo.go:18-78 | cutting `a;b` gives the untrimmed pieces of `a` and then those of `b` if and only if scanning `a` ends outside quotes and comments |
| `SplitLaws.SplitIsCompositional` | internal/sqlguard/parser_nocgo.go:18-85 | splitting `a;b` gives the statements of `a` and then those of `b` if and only if scanning `a` ends outside quotes and comments |
| `SplitLaws.StatementsResplit` | internal/sqlguard/parser_nocgo.go:9-85 | every statement returned splits into itself alone |
| `Commute.SplittingCommutesWithStripping` | internal/sqlguard/sqlguard.go:195-209 | on a script in step that can be stripped, split then strip, trim and drop blanks gives the statements of the stripped script, in order |
| `Commute.PlainTextIsInStep` | internal/sqlguard/parser_nocgo.go:41-72 | a script without backslashes and adjacent single quotes is in step |
| `Commute.InStepCutsAtTopLevel` | internal/sqlguard/parser_nocgo.go:41-72 | every cut of a strippable script in step is where the stripper is in code |
| `Commute.PlainTextCutsAtTopLevel` | internal/sqlguard/parser_nocgo.go:41-72 | so it is for every strippable script without backslashes and adjacent single quotes |
| `Commute.PiecewiseStripping` | internal/sqlguard/sqlguard.go:195-209 | the stripped pieces rejoin to the stripped script if and only if the stripper is in code at every cut and the script can be stripped |
| `Commute.BadCutFails` | internal/sqlguard/sqlguard.go:200-204 | a cut inside what the stripper reads as a literal, a quoted name or a block comment makes the script fail whatever follows |
| `Commute.EscapedQuoteDisagrees` | internal/sqlguard/parser_nocgo.go:55-63 | a literal with a backslashed quote, any runes before it, splits a strippable script so that it fails |
| `Commute.EmptyLiteralDisagrees` | internal/sqlguard/parser_nocgo.go:55-61 | an empty literal stays open for the splitter, and the two orders disagree |
| `Commute.DoubledQuoteDisagrees` | internal/sqlguard/parser_nocgo.go:55-61 | a literal that ends in a doubled quote, any runes before it, makes the two orders disagree |
| `LexLaws.StrippingPreservesTokens` | internal/sqlguard/sqlguard.go:255-353 | tokenizing a stripped text gives the tokens of a reference lexer for which comments are white space, and only the dollar-quote rule can make it fail |
| `LexLaws.StripOverLexeme` | internal/sqlguard/sqlguard.go:285-345 | the stripper copies a lexeme of the tokenizer whole and is back in code after it; an unclosed one leaves it unclosed |
| `LexLaws.LexCut` | internal/sqlguard/sqlguard.go:469-569 | two texts are tokenized one after the other wherever the first ends in white space or the second starts with a rune that ends its last token |
| `LexLaws.LexTrimmed` | internal/sqlguard/sqlguard.go:205 | white space around a statement does not change its tokens |
| `TokenLaws.TokensCoverText` | internal/sqlguard/sqlguard.go:469-569 | a text that is tokenized is its tokens as they are spelled, quoted names with their quotes doubled, with nothing but blanks around them |
| `TokenLaws.SpacingIsInvisible` | internal/sqlguard/sqlguard.go:469-569 | the tokens of a text, written out with any white space that keeps them apart, are tokenized to the same tokens |
| `LimitLaws.WrappedTokens` | internal/sqlguard/sqlguard.go:431-436 | for an accepted query, the row-limited text has the wrapper's tokens around exactly the validated ones, less a final semicolon, and its last token is the limit, one if that is not positive |
| `LimitLaws.TrimmedSemicolon` | internal/sqlguard/sqlguard.go:571-575 | an accepted text ends in at most one semicolon, and taking it off takes off one token |
| `Guard.AppendUniqueTables` | internal/sqlguard/sqlguard.go:960-972 | the loop with its map of seen names returns `AppendUnique` |
| `GuardLaws.AppendUniqueIsUnion` | internal/sqlguard/sqlguard.go:960-972 | the result has the old names first, exactly the non-empty new ones besides, and no repeats if there were none |
| `GuardLaws.AddedInOrder` | internal/sqlguard/sqlguard.go:960-972 | the names added were not there and are in the order in which the values first have them |
| `Guard.DetectTableRefs` | internal/sqlguard/sqlguard.go:640-701 | the loops that jump over each relation return `TableRefs`: the union of the relations read, with the target of a delete |
| `GuardLaws.AcceptedRelations` | internal/sqlguard/sqlguard.go:105-168 | in an accepted statement each relation keyword that is read and not itself taken as a name is followed by a simple reference that is among the tables and allowed; a plain one is allowed as written, in public where the guard takes that, with every operation permitted for DML |
| `FromLists.ListIsSeen` | internal/sqlguard/sqlguard.go:741-760 | a list is refused if and only if it has a comma with no parenthesis or word of a join or later clause before it |
| `FromLists.FromHasOneItem` | internal/sqlguard/sqlguard.go:741-760 | in an accepted statement the relation after a FROM is the only item of its clause if and only if no comma of the clause has such a place before it |
| `FromLists.JoinlessHasOneItem` | internal/sqlguard/sqlguard.go:741-760 | so it is in every accepted statement whose clause has no parenthesis and no join |
| `FromLists.ListAfterOnIsMissed` | internal/sqlguard/sqlguard.go:746-755 | under every policy that allows public, `select * from t join u on c, s.x` is accepted with the tables t and u alone, for all ordinary words |
| `FromLists.ListedExists` | internal/sqlguard/sqlguard.go:746-755 | there are such queries |
| `GuardLaws.ReadKeywords` | internal/sqlguard/sqlguard.go:643-676 | the keywords read are exactly FROM, JOIN, REFERENCES, INTO of an insertion or selection, a leading UPDATE, USING of a deletion without a list, and LIKE, INHERITS, PARTITION OF and AS TABLE of a creation |
| `GuardLaws.ReferenceIsRecovered` | internal/sqlguard/sqlguard.go:415-421 | a non-blank reference splits back into its name and the schema that the guard takes for it if and only if they have no dots, quotes or white space where these would be lost |
| `GuardLaws.QualifiedNameRecovered` | internal/sqlguard/sqlguard.go:949-958 | the same for schema and name joined by a dot, blank ones included |
| `GuardLaws.BareNameRecovered` | internal/sqlguard/sqlguard.go:949-958 | a bare name is recovered in schema public, which the guard takes for it, if and only if it is plain |
| `GuardLaws.AcceptanceIsExact` | internal/sqlguard/sqlguard.go:63-175 | the decision with its loops as for-all conditions, from `BadTokenNone` and `RefusedTableNone`: one statement with tokens, none forbidden, calling only functions of allowed schemas, of the kind its mode is for, whose tables can all be told and are all allowed; then exactly these are reported |
| `Readings.AcceptanceByTokens` | internal/sqlguard/sqlguard.go:63-175 | acceptance by the tokens where they stand: one statement; no dangerous name, statement word, DO without ON CONFLICT before it, row lock or SELECT INTO; calls of allowed schemas; a first word of the mode; tables that can be told and meet the policy |
| `Readings.AcceptedVerdict` | internal/sqlguard/sqlguard.go:127-174 | an accepting verdict has the first word as its operation, no reason, and the warning of DDL or of a query that says no LIMIT |
| `Readings.RefusalIsTold` | internal/sqlguard/sqlguard.go:81-174 | a refusal tells the first thing wrong of these: the words, the functions, the mode, the names of the tables, the policy on them |
| `Readings.RefusedTableIsTold` | internal/sqlguard/sqlguard.go:105-168 | where the policy refuses, the verdict has the operation and all the tables, and tells the schema or the operation of the first one that is not allowed |
| `Readings.TextIsTold` | internal/sqlguard/sqlguard.go:63-80 | other texts are refused as blank, as not one statement, or for the first thing that is no token |
| `Readings.OperationsAreExact` | internal/sqlguard/sqlguard.go:156-165 | the operations needed on each table are the first word of DML and, for an insertion that says DO UPDATE, the update |
| `Readings.RelationIsExact` | internal/sqlguard/sqlguard.go:711-739 | a reference is a name, or schema, dot and name, with no modifier before it and no third part, star or forbidden parenthesis after; unquoted names are in lower case |
| `Readings.AcceptedNames` | internal/sqlguard/sqlguard.go:678-694 | in an accepted statement each keyword read is followed by such a name, which is reported and allowed, if plain in the schema that is written or else in public, with every operation permitted |
| `Readings.AcceptedDeletion` | internal/sqlguard/sqlguard.go:687-700 | so is the name after the first DELETE FROM of a deletion |
| `Readings.AcceptedTargets` | internal/sqlguard/sqlguard.go:762-893 | so is the name of the table that DDL drops, truncates, alters or creates, or creates an index on, and of that index, at its place in the statement |
| `Readings.AcceptedHasTarget` | internal/sqlguard/sqlguard.go:379-399 | every accepted DDL statement has such a place |
| `Readings.ReportedIsNamed` | internal/sqlguard/sqlguard.go:640-701 | nothing is reported but names at such places |
| `Readings.DropIsExact` | internal/sqlguard/sqlguard.go:859-875 | DROP is understood if and only if it is of TABLE, or INDEX but not CONCURRENTLY, with one name after IF EXISTS, and no CASCADE; then that is its object |
| `Readings.TruncateIsExact` | internal/sqlguard/sqlguard.go:877-893 | TRUNCATE if and only if it has one name, after TABLE or not, not after ONLY, and no CASCADE |
| `Readings.AlterIsExact` | internal/sqlguard/sqlguard.go:813-857 | ALTER if and only if it is of TABLE, has a name after IF EXISTS and ONLY, and does not rename, attach, inherit, set and so on, other than in actions of foreign keys |
| `Readings.CreateTableIsExact` | internal/sqlguard/sqlguard.go:767-775 | CREATE TABLE if and only if it has a name after IF NOT EXISTS and no CASCADE other than of a foreign key |
| `Readings.CreateIndexIsExact` | internal/sqlguard/sqlguard.go:776-811 | any other CREATE if and only if it is of an INDEX, not CONCURRENTLY, with no name or a simple one, and a simple table after the first ON that follows; these are its objects |
| `GuardLaws.BadTokenNone` | internal/sqlguard/sqlguard.go:571-608 | the token loop finds nothing if and only if no token is a second statement or a forbidden word |
| `GuardLaws.RefusedTableNone` | internal/sqlguard/sqlguard.go:152-168 | the table loop refuses nothing if and only if every table has an allowed schema and every operation on it is permitted |
| `GuardLaws.GuardIsMonotone` | internal/sqlguard/sqlguard.go:63-175 | a policy that permits all that another permits gives a statement that the other accepts the same verdict in every part |
| `GuardLaws.CoveringIsWider` | internal/config/config.go:825-850 | a policy permits all that another permits when each name in the other's lists is matched by one of its own, in any case or by a wildcard |
| `PolicyLaws.OneSchemaAllows` | internal/config/config.go:825-832 | an entry allows the schema of that name in any case, and the wildcard every one |
| `PolicyLaws.OnePolicyAllows` | internal/config/config.go:838-850 | a policy permits an operation on a table if and only if its schema, its table and one of its operations are that name in any case or the wildcard |
| `PolicyLaws.SchemasAddUp` | internal/config/config.go:825-832 | two lists of schemas allow what one of them does, and an empty list allows nothing |
| `PolicyLaws.PoliciesAddUp` | internal/config/config.go:838-850 | so it is with lists of policies |
| `PolicyLaws.DDLIsOnByDefault` | internal/config/config.go:834-836 | DDL is refused if and only if it is turned off |
| `PolicyLaws.ScopesOfPrincipal` | internal/authn/authn.go:157-163 | a principal has a scope, in any case, and may use a connection, if and only if that is listed, or the wildcard for connections, or it has the scope admin |
| `CaseLaws.CaseIsInvisible` | internal/sqlguard/sqlguard.go:63-175 | statements that differ only in the case of ASCII letters outside quotes get the same verdict, operation, tables and warnings |
| `ScriptCase.ScriptCaseIsInvisible` | internal/sqlguard/sqlguard.go:183-249 | scripts that differ only in the case of letters outside quotes, one with every cut at top level, get the same error, or statements of the same modes, verdicts and tables |
| `ScriptCase.CaseOfPiecesIsInvisible` | internal/sqlguard/sqlguard.go:183-249 | the same for all scripts whose pieces, as the splitter cuts them, differ only so |
| `CaseLaws.LexFolds` | internal/sqlguard/sqlguard.go:469-569 | tokenizing a text in folded case gives its tokens in folded case, and fails where and as it did |
| `CaseLaws.SameJudgement` | internal/sqlguard/sqlguard.go:571-760 | tokens that differ only in the case of unquoted words are judged alike in every mode |
| `Script.ValidateScript` | internal/sqlguard/sqlguard.go:183-238 | the loop returns `ScriptAnswer`: what it has built, and the error that stopped it with its statement number |
| `Script.ValidateStatement` | internal/sqlguard/sqlguard.go:200-232 | one round: strip, trim, count, choose the mode, judge, collect |
| `Script.ScriptIsAccepted` | internal/sqlguard/sqlguard.go:183-249 | accepted if and only if all statements can be stripped, between one and the limit are not blank, and each is accepted in the mode of its leading keyword; then the answer lists them in order with the duplicate-free union of their tables |
| `ScriptErrors.AcceptedByFirstWord` | internal/sqlguard/sqlguard.go:212-247 | each statement of an accepted script is DML or DDL by its first word, and has its own verdict in that mode |
| `ScriptErrors.FirstFaultIsTold` | internal/sqlguard/sqlguard.go:199-232 | an error gives the number, blank statements apart, of the first statement at fault, all before it being accepted: it cannot be stripped, is one too many, begins with no allowed word, or is rejected for the reason given |
| `ScriptErrors.WholeScriptErrors` | internal/sqlguard/sqlguard.go:188-236 | the other errors are for a blank script, a limit that is not positive, and a script in which nothing is left after stripping |
| `Script.ScriptGuardIsMonotone` | internal/sqlguard/sqlguard.go:183-249 | a policy that permits all that another permits, with at least its limit, gives a script that the other accepts the same answer |
| `Script.AcceptedScriptTokens` | internal/sqlguard/sqlguard.go:195-232 | where every cut is at top level, an accepted script has, comments and semicolons apart, exactly the tokens of the statements that were judged, in their order |
| `Script.AcceptedInStepTokens` | internal/sqlguard/sqlguard.go:195-232 | the same for every accepted script in step that can be stripped |
| `Examples.QueryIsAccepted` | internal/sqlguard/sqlguard.go:63-175 | under every policy that allows public, `select * from t` is accepted with table public.t and the warning that it has no limit |
| `Examples.ScriptIsAcceptedSomewhere` | internal/sqlguard/sqlguard.go:183-238 | under every policy that allows public and DDL, the script `drop table t` is accepted |
| `Examples.DeletionIsValid` | internal/sqlguard/sqlguard.go:137-174 | under every policy that allows public and the deletion from public.t, `delete from t` is accepted with that table |
| `Examples.DeletionsAreAccepted` | internal/sqlguard/sqlguard.go:183-238 | then a script of two such deletions is accepted, both as DML |
| `Examples.QuotedQueryIsAccepted` | internal/sqlguard/sqlguard.go:523-545 | a query of any quoted name without double quotes is accepted with that name as it is split at its dots, where the policy allows that |
| `Examples.DottedNameIsMisread` | internal/sqlguard/sqlguard.go:415-421 | for all plain `s` and `n`, a query of the quoted name `s.n`, a reference without a schema for which the guard else takes public, is accepted as table `n` of schema `s` wherever `s` is allowed |
| `SearchPath.SetScopedSearchPath` | internal/postgres/store.go:632-647 | the loops return the path that the store sets: the configured schemas in order, or none where there are no schemas or a wildcard |
| `SearchPath.PathIsExact` | internal/postgres/store.go:632-647 | a path is set if and only if it is the configured schemas, some and no wildcard |
| `SearchPath.ResolvesToFirst` | internal/postgres/store.go:641-645 | a name without a schema leads to the first schema of the path that has the table |
| `SearchPath.CheckedIsRun` | internal/postgres/store.go:632-647 | the table that the guard checks is the one that the statement runs on, if there is one, if and only if the names are plain and the schema is written or the path leads to public |
| `SearchPath.ScopeIsExact` | internal/postgres/store.go:632-647 | for a plain reference that is so whatever tables there are, if and only if the schema is written or no schema but public is searched |
| `SearchPath.ScopedNamesStayAllowed` | internal/postgres/store.go:632-647 | where the store sets the path, a name without a schema leads to a configured schema or to one of the system's |
| `SearchPath.AcceptedRunsOnAllowed` | internal/postgres/store.go:632-647 | so the plain relations that an accepted statement reads are in allowed schemas or, unqualified, in the system's; where the path leads to public, every operation on them is permitted |
| `SearchPath.PolicyIsMissed` | internal/postgres/store.go:288-321 | with the schemas app and public and a policy for public.t alone, `delete from t` is accepted as one of public.t and runs on app.t, if there is one, which no policy permits |
| `Scopes.Normalize` | internal/oauth/oauth.go:873-885 | the loop with its map of seen values returns `Normalized` |
| `Scopes.ParsedScopesAreNormal` | internal/oauth/oauth.go:869-885 | parsed scopes are in lower case, non-blank, without separators and without repeats |
| `Scopes.JoinThenParse` | internal/oauth/oauth.go:869-885 | joining scopes with spaces and parsing them gives them back if and only if they are of that form |
| `OAuthRequests.FieldsApart` | internal/oauth/oauth.go:869-871 | a blank, comma, tab, newline or carriage return parts a scope list in two |
| `OAuthRequests.OneField` | internal/oauth/oauth.go:869-871 | a text without any of them is one scope |
| `OAuthRequests.NormalizedHas` | internal/oauth/oauth.go:873-885 | normalizing keeps exactly the values that are not blank, trimmed and in lower case |
| `OAuth.NewClient` | internal/oauth/oauth.go:257-320 | a registered client has the minted identifier, no client authentication, the given redirect URIs, all well formed, the code grant and no grants but the two, the code response type, and scopes of the configured principal |
| `OAuthRequests.RegistrationIsExact` | internal/oauth/oauth.go:257-320 | a registration is taken if and only if its fields are valid; the client has the scopes that it names, or the base and default ones if it names none, and every other field as asked for |
| `OAuthRequests.ApprovalIsExact` | internal/oauth/oauth.go:373-389 | a request is approved if and only if its form asks for it, with all its checks, and its user signs in and consents; the scopes are those that the form names, or the base and default ones |
| `OAuthRequests.AskingIsExact` | internal/oauth/oauth.go:501-541 | a token request is gone on with if and only if it is of a known public client without an Authorization header, for this server, and for one of the two grants, with a code for the first |
| `OAuthRequests.RegisteringIsExact` | internal/oauth/oauth.go:316-328 | the step of a valid registration adds its client, and writes the file or is an error that keeps the client; nothing else changes |
| `OAuthRequests.InvalidIsRefused` | internal/oauth/oauth.go:257-301 | an invalid registration changes nothing |
| `OAuthRequests.RefreshNeeds` | internal/oauth/oauth.go:564-631 | a refresh is answered if and only if its token is a live refresh token of this server, of the client and of the configured principal, for scopes that the principal has |
| `OAuthRequests.BearerNeeds` | internal/oauth/oauth.go:635-662 | a bearer token is honoured if and only if it is a live access token of this server, of a principal that has its scopes |
| `OAuthRequests.BearerIsAnswered` | internal/oauth/oauth.go:635-662 | then the request goes on as that principal, and is unauthorized otherwise |
| `OAuthLaws.ConfiguredIsKnown` | internal/oauth/oauth.go:139-148 | in every reachable state the configured client is a known public client with the configured redirect URIs, both grants and no scopes of its own |
| `OAuthProvider.Provider.LoadClients` | internal/oauth/oauth.go:783-806 | the clients are those rebuilt from the file, the last of equal identifiers winning, with the configured client added; it fails if and only if a saved client is refused |
| `OAuthProvider.Provider.SaveClientsLocked` | internal/oauth/oauth.go:808-836 | the file lists every client but the configured one, once |
| `OAuthProvider.Provider.RegisterClient` | internal/oauth/oauth.go:257-328 | a valid registration adds one client and writes the file; a failed write keeps the client in memory and is an error; an invalid one changes nothing |
| `OAuthProvider.Provider.CleanupCodesLocked` | internal/oauth/oauth.go:775-781 | exactly the expired codes go, the others keep their values |
| `OAuthProvider.Provider.MintAuthorizationCode` | internal/oauth/oauth.go:395-405 | the codes are the unexpired ones and the new one, with the validated request in it |
| `OAuthProvider.Provider.TakeAuthorizationCode` | internal/oauth/oauth.go:542-547 | the code is returned and gone in one locked step |
| `OAuthLaws.StepKeepsInvariant` | internal/oauth/oauth.go:237-631 | every step of every request keeps: clients, file, pending requests, codes and tokens all trace to sound approvals |
| `OAuthLaws.RunKeepsInvariant` | internal/oauth/oauth.go:237-631 | so does every run |
| `OAuthLaws.ApprovalsAreSignIns` | internal/oauth/oauth.go:349-389 | every approval in a run was made by one of its requests: in the state it was then in its form asked for exactly this, with the scopes named in it or the default ones, and its user signed in and consented |
| `OAuthTraces.EveryTokenTracesToASignIn` | internal/oauth/oauth.go:349-631 | each token in any response of any run, through any chain of refreshes, traces to an event, no later, that redeems a code with the verifier of its challenge and its redirect URI, and that one to an earlier sign-in that approved this very request; the token has its client, the principal and exactly its scopes, those that the sign-in named or the default ones, within those of the principal and of the registered client, and the redirect URI is registered |
| `OAuthLaws.IssuedIsApproved` | internal/oauth/oauth.go:536-631 | every issued token carries the scopes of a recorded approval, and parsing its claim gives them back |
| `OAuthLaws.BearerGivesNoMore` | internal/oauth/oauth.go:635-662 | a bearer token stands for the configured principal with its connections, exactly the approved scopes, and no right that principal lacks |
| `OAuthLaws.CodesAreRedeemedOnce` | internal/oauth/oauth.go:536-562 | over every interleaving of exchanges and other requests, a code value yields at most one token response |
| `OAuthLaws.PresentationConsumes` | internal/oauth/oauth.go:542-550 | once a request has presented a code and got its answer, whatever came between, no later request redeems it |
| `OAuthLaws.RestartForgetsCodes` | internal/oauth/oauth.go:88-153 | no code that was minted before a restart is redeemed after it |
| `OAuthGrants.CodeGrantIsExact` | internal/oauth/oauth.go:536-562 | in every reachable state a taken code is answered with tokens if and only if it was there, is in its lifetime, and its own client shows the verifier of the approved challenge and no other redirect URI; the tokens have the approved scopes |
| `OAuthGrants.RefreshIsExact` | internal/oauth/oauth.go:564-579 | an issued token is refreshed if and only if it is a refresh token in its lifetime shown by its own client and the configured principal has a name; the new tokens keep its scope |
| `OAuthGrants.RefreshIgnoresGrantTypes` | internal/oauth/oauth.go:500-579 | a refresh keeps to the registered grant types if and only if they have the refresh grant or it would be refused anyway |
| `OAuthGrants.RegisteredGrants` | internal/oauth/oauth.go:275-316 | a client has the grant types that it registers for, where the list is in normal form |
| `OAuthGrants.CodeOnlyClientIsRefreshed` | internal/oauth/oauth.go:500-579 | in every reachable state a client without the refresh grant gets new tokens for its live refresh token |
| `OAuthGrants.BearerIsExact` | internal/oauth/oauth.go:635-662 | an issued token authenticates if and only if it is an access token in its lifetime |
| `OAuthGrants.GrantedAt` | internal/oauth/oauth.go:581-631 | the two tokens of a response have the time of the grant, their own lifetimes and identifiers, and are out |
| `OAuthGrants.TokensLastTheirLifetime` | internal/oauth/oauth.go:581-662 | whatever happens after a grant, its access token authenticates until its lifetime is over and not after it, and its refresh token never does |
| `OAuthGrants.ApprovedRequestGetsTokens` | internal/oauth/oauth.go:349-631 | from every reachable state: a user signs in and the client shows the code with its verifier, with any run between any two steps that has no restart, no other presentation of the code and no step of these requests; the client gets tokens of exactly the approved scopes if and only if it is answered within the lifetime of the code |
| `OAuthLaws.CleanupIsUnobservable` | internal/oauth/oauth.go:395-396 | a provider that drops expired codes and one that never does give the same responses to every sequence of events |
| `OAuthLaws.RegistrationSurvivesRestart` | internal/oauth/oauth.go:136-148 | after a successful registration with a client file, a provider rebuilt from the file has exactly the same clients |
| `Store.Database.DescribeTable` | internal/postgres/store.go:201-257 | the reply, the cache and the database are those of the describe step: the cached description of an allowed table, or a fresh one that is then cached |
| `Store.Database.ExecuteDML` | internal/postgres/store.go:288-321 | the statement is committed only if accepted, executed and within the row limit; the cache stays |
| `Store.Database.ExecuteDDL` | internal/postgres/store.go:336-375 | a committed statement empties the cache; otherwise nothing changes |
| `Store.Database.ExecuteScript` | internal/postgres/store.go:381-457 | the loop in its transaction is the script step, with its partial result where it stops |
| `Store.Database.RefreshSchemaCache` | internal/postgres/store.go:459-468 | the cache is emptied, the database stays |
| `StatementLaws.DMLIsAllOrNothing` | internal/postgres/store.go:288-321 | a DML statement changes the database if and only if it is accepted, its transaction and it itself succeed and its rows are within the limit; then the database is what the statement makes of it, its rows are reported and the cache stays; otherwise nothing changes |
| `StatementLaws.DDLIsAllOrNothing` | internal/postgres/store.go:336-375 | so it is with DDL, without a limit, and the cache is emptied |
| `StatementLaws.FailureIsTold` | internal/postgres/store.go:288-375 | a failure tells whether the statement was refused and why, failed, had too many rows and how many, or its transaction failed |
| `StatementLaws.DescribeIsExact` | internal/postgres/store.go:201-257 | a table of an allowed schema is described as cached or, if the catalog can be asked, as it says: columns in order, those of the primary key marked, keys and indexes; then that is cached under the key of the table and nothing else changes |
| `StatementLaws.ScriptEmptiesCache` | internal/postgres/store.go:451-455 | a committed script leaves the cache as it is if and only if it has no DDL |
| `StatementLaws.RefreshEmptiesCache` | internal/postgres/store.go:459-468 | refreshing empties the cache and leaves the database |
| `StatementLaws.BytesAddUp` | internal/postgres/store.go:386-388 | the length of a script that is held against its limit is that of its runes in bytes, one after the other |
| `StatementLaws.RuneBytes` | internal/postgres/store.go:386-388 | each takes one to four bytes, as UTF-8 has it |
| `StoreLaws.ScriptIsAllOrNothing` | internal/postgres/store.go:381-457 | a script is committed if and only if it is accepted, every statement and the commit succeed and every running 64-bit total is within the limit; then the database is the fold of its statements, otherwise nothing changes |
| `StoreLaws.OnlyTheTotalMatters` | internal/postgres/store.go:431-435 | where the final total is a 64-bit integer, aborting early agrees with comparing only that total |
| `StoreLaws.TotalsAgree` | internal/postgres/store.go:431-435 | for all counts the two agree if and only if those that are not stopped add up to a 64-bit integer |
| `StoreLaws.ScriptIsAtomic` | internal/postgres/store.go:381-457 | the intended rule, commits exactly of what succeeds with the sum of its rows within the limit, holds of a run if and only if the script is not committed with a sum past 64 bits |
| `StoreLaws.LimitIsKeptExactly` | internal/postgres/store.go:381-457 | of an accepted script whose transaction succeeds it holds whatever the statements count, if and only if at most one of them is DML or the limit is zero |
| `StoreLaws.OverflowPassesLimit` | internal/postgres/store.go:431-435 | for every positive limit and every accepted script with two DML statements there are 64-bit row counts with which it passes the limit and is committed |
| `StoreExamples.OverflowIsCommitted` | internal/postgres/store.go:381-457 | so it is with the script of two deletions, under every policy that accepts it |
| `StoreLaws.ScriptIsAccounted` | internal/postgres/store.go:405-456 | on commit the results are numbered from one, the 64-bit sum of their rows is the total and the DML and DDL counts add up to the number executed; a failure at statement k reports exactly the k-1 before it; an abort by the row limit reports those before a DML statement that is counted; a failed transaction reports all or none |
| `StoreLaws.ExecutionIsAccounted` | internal/postgres/store.go:409-444 | the same from any point of the loop, and what is reported when the row limit stops it |
| `StoreLaws.TotalIsSum` | internal/postgres/store.go:431-435 | the 64-bit sum of counts is their sum if and only if that is a 64-bit integer |
| `CacheLaws.KeysAreInjectiveIff` | internal/postgres/store.go:206-209 | cache keys tell allowed tables apart if and only if no configured schema is a wildcard or extends another by a dot |
| `CacheLaws.DotFreeSchemasKeepApart` | internal/postgres/store.go:206-209 | explicit schemas without dots do so |
| `CacheLaws.StepKeepsCoherence` | internal/postgres/store.go:201-468 | every operation, whatever fails in it, keeps every cache entry equal to what the catalog says of its table |
| `CacheLaws.CacheIsInvisible` | internal/postgres/store.go:201-468 | over every sequence of operations a store with its cache leaves the same database and gives the same replies as one without, except that it may still describe a table, rightly, where the catalog cannot be asked |
| `CacheLaws.CollidingKeysShow` | internal/postgres/store.go:209-213 | two allowed tables with one key make the replies differ |
| `Search.SearchObjects` | internal/mcpserver/server.go:569-621 | the nested loops with their early exits return `SearchAnswer`: the first distinct objects met, a failure counting only if it comes before there are enough |
| `Search.Results.SearchInConnection` | internal/mcpserver/server.go:606-614 | the schemas of a connection are scanned in order until there is enough or a call fails |
| `Search.Results.SearchInSchema` | internal/mcpserver/server.go:623-674 | the tables of a schema likewise |
| `Search.Results.SearchInTable` | internal/mcpserver/server.go:629-672 | a table and its columns likewise |
| `Search.GatherIsCut` | internal/mcpserver/server.go:629-673 | scanning with a bound is cutting the deduplicated list of all that is met, where nothing fails before the cut |
| `Search.GatherTwice` | internal/mcpserver/server.go:629-673 | the bounded scan of two parts is the scan of the second after that of the first |
| `SearchLaws.SearchFindsFirst` | internal/mcpserver/server.go:584-673 | when the calls for the permitted connections, their schemas and the tables listed in them succeed, the results are the first entries of the list that has exactly the tables and columns with the query in their name, or that of the schema, once each, and is ordered by connection, schema and table as they are listed, a table before its columns and these as they are listed |
| `SearchLaws.ShortAnswerIsComplete` | internal/mcpserver/server.go:584-673 | an answer with fewer results than the limit hides no failure: all these calls succeed and it is that list |
| `SearchLaws.SearchIsRefused` | internal/mcpserver/server.go:569-577 | a search is refused if and only if the read scope is missing; a blank one finds nothing |

## Left out

- PlainTextIsInStep: being in step is enough for splitting and stripping to commute but not needed, since some scripts out of step still agree; the exact condition proved is that of `PiecewiseStripping`, for rejoined pieces.
- AcceptedRelations: is about the keywords of `ReadKeywords`; a table that a query names in another way, as with the command TABLE, is not looked at by the guard.
- AcceptedRunsOnAllowed: is about tables that are read or changed; the schema in which a creation without one makes its table is not modelled. The driver's quoting of the path is taken to be exact.
- CacheIsInvisible: operations do not overlap; `DescribeTable` in the program releases its lock between the lookup and the fill. It also assumes that DML leaves the catalog alone.
- RegistrationSurvivesRestart: the file lists its clients in any order without repeats, not in the sorted one, and its JSON is taken as it is.
- OAuthProvider.Provider.LoadClients: a file that cannot be read or decoded is not modelled; the program then refuses to start.
- OAuthProvider.Provider.SaveClientsLocked: the clients are written in any order, not the sorted one, which nothing here depends on; a write that fails is an input of `RegisterClient`.
- SearchFindsFirst: identifiers are the references themselves; titles, URLs and citation signatures are not modelled.
- The cgo splitter of internal/sqlguard/parser_cgo.go, which is foreign code.
- Unicode: which runes above ASCII are letters, digits or white space is left unspecified, and only ASCII letters change case; the program folds all of Unicode.
- Texts of errors: reasons are an enumeration, one for all the refusals of a table reference, and some texts that quote a word of the statement are not kept.
- HMAC, SHA-256, base64, JSON and randomness: tokens are genuine or forged, digests are one-to-one, random values never repeat, and a failing random source is not modelled.
- A change of configuration during a run: the signing key, the principals and the lifetimes stay the same, across restarts too.
- HTTP, forms, redirects and the two ways in which an authorization error is delivered; which redirect URIs are well formed is a parameter.
- PostgreSQL, its driver and timeouts: a statement is a partial function of the database with a row count, a failed begin, search path, query or commit is an input of each operation, and a failed commit changes nothing.
- Queries and explain plans (`ExecuteSQL`, `ExplainSQL`, sampling), except for the row-limited text; reading rows, masking and JSON conversion.
- Configuration loading, API keys, audit, health checks and the command line.
