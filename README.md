# SQL fragment builder, modelled in Dafny

This project models the `SQL` helper class of microlight, a small Micropub
publishing backend. The helper builds three kinds of SQL text from structured
input:

- a `CREATE TABLE IF NOT EXISTS` statement, with optional foreign keys;
- a `WHERE` clause made only of conjunctions;
- the column and value lists of an `INSERT`.

It does not bind parameters. Every column name, foreign-key name and value
is checked against a regular expression, the "escape pattern"; the table
name given to `create` is not checked. Each value is then passed
to the connection's string-literal quoting. The first check that fails aborts
the whole call with an exception.

The model has six modules.

- `Wrappers` (wrappers.dfy): the `Option` type the other modules share.
- `Text` (text.dfy): PHP's `implode` and `substr($s, 0, -1)`, plus a splitting
  function used to read a joined list back.
- `SqlEscape` (sql_escape.dfy):
  - the operator constants (`SQLOP`) and the escape constants (`SQLEscape`),
    each a closed datatype;
  - the membership test as a parse function from the constant's text;
  - the language each PCRE pattern accepts, one predicate per pattern.
- `SqlSpec` (sql_spec.dfy):
  - the exceptions as an `Error` datatype;
  - `regex_test` and fail-fast iteration (`FirstError`);
  - the exact text of each fragment as a function: `PropsSpec`,
    `ForeignKeysSpec`, `CreateSpec`, `WhereSpec` and `InsertSpec`;
  - the lemmas that say what these fragments mean: when they fail, which
    error wins, and how the generated text reads back into its parts.
- `SqlBuilder` (sql_builder.dfy): the class `Sql`. Its loops accumulate the
  text step by step, as the PHP does. Each method is proved to return exactly
  the matching `SqlSpec` function.
- `SqlExamples` (sql_examples.dfy): concrete calls with their exact output or
  error. They include the column-to-pattern binding of `insert` and injection
  attempts that are refused.

The quoting function (`PDO::quote`) is a parameter of the class, a
`string -> string` value about which nothing is assumed. Every result
therefore holds for any database driver.

### How the code behaves where its comments say otherwise

The model follows the code.

- TAG (`includes/sql.include.php:38-40`): the comments describe tags made of
  alphanumerics, underscores, hyphens and spaces, with commas only as list separators.
  The character class `[\x00-\x7F]` matches every 7-bit character, commas
  and quotes included, and the `^$` branch admits the empty string. So the
  pattern accepts exactly the all-ASCII strings
  (`SqlEscape.TagAcceptsExactlyAscii`).
- ORDER_DIRECTION (line 50): the comment says "and nothing else", but the
  pattern has no anchors. Any text containing `ASC` or `DESC` passes,
  for example `ASC; DROP TABLE posts`.
- ISO8601 (line 55): the pattern allows month `00` and day `00`. The
  separator may be a space. In the offset, the colon and the minutes are
  optional, so `-05:` is accepted.
- `$` without the `D` modifier also matches just before a final newline.
  Every anchored pattern (COLUMN, SLUG, POST_TYPE, DB_TYPE, TAG, ISO8601)
  therefore accepts one trailing `"\n"`, as `SqlEscape.EndAnchored` states.
- `insert` returns its text with a leading space: `" (...) VALUES (...)"`.
  For an empty row it returns `" () VALUES ()"`.
- `where` returns `null` for an empty condition list, because its
  accumulator is never assigned; a caller that concatenates it sees the
  empty string. `propsToString` does the same for an empty column list,
  which `create` interpolates as the empty string. An array
  value is rendered as `(q1,q2,...)` whatever the operator, not only with
  `IN`.
- `create` checks neither the table name nor the presence of at least one
  column. With no columns and some foreign keys, the text reads `(, ...`;
  with neither it reads `();` (`SqlSpec.CreateWithoutColumns`). Neither is
  a complete CREATE TABLE statement.
- `foreign_keys` is tested with `!= null`, so an empty array behaves like
  no foreign keys at all.

## Model

| member | source | states |
|---|---|---|
| SqlEscape.ParseOp | includes/sql.include.php:17-26 | an operator is accepted exactly when its text equals one of the eight `SQLOP` constants, and then it is that constant |
| SqlEscape.ParseOpText | includes/sql.include.php:17-26 | every operator constant is recognised from its own text, so the constant set and the membership test agree |
| SqlEscape.ParseEscape | includes/sql.include.php:28-56 | an escape is accepted exactly when its text equals one of the eight `SQLEscape` pattern strings, and then it is that pattern |
| SqlEscape.ParseEscapeText | includes/sql.include.php:28-56 | every escape constant is recognised from its own pattern text |
| SqlSpec.RegexTest | includes/sql.include.php:92-95 | the test passes exactly when the value matches the pattern; otherwise it fails with an error naming the value; NONE (line 30) never fails; `SqlEscape.Matches` is `preg_match` for each pattern (lines 30-55), one predicate per pattern, with every anchored pattern ending in PCRE's `$` that also admits one final newline |
| SqlEscape.ColumnAccepts | includes/sql.include.php:33 | COLUMN accepts exactly the non-empty strings of letters and underscores, optionally followed by one newline |
| SqlEscape.ColumnCharacters | includes/sql.include.php:33 | a COLUMN value is non-empty and contains no backtick, quote, semicolon, comma, space or parenthesis, so it cannot leave its backtick quoting |
| SqlEscape.TrailingNewline | includes/sql.include.php:33 | `$` admits one final newline (`abc\n` passes) but not two, and an inner space is refused |
| SqlEscape.SlugCharacters | includes/sql.include.php:35-36 | SLUG accepts exactly the non-empty strings of letters, digits, `_` and `-`, optionally followed by one newline |
| SqlEscape.TagBodyAscii | includes/sql.include.php:38-40 | each alternative of the TAG pattern only ever matches 7-bit text |
| SqlEscape.TagAcceptsExactlyAscii | includes/sql.include.php:38-40 | TAG accepts a value exactly when every character is 7-bit: commas, quotes and the empty string all pass |
| SqlEscape.PostTypeCharacters | includes/sql.include.php:42-43 | POST_TYPE accepts exactly the non-empty runs of lower-case letters, optionally followed by one newline |
| SqlEscape.DbTypeCharacters | includes/sql.include.php:45-47 | DB_TYPE accepts exactly a capital followed by capitals and spaces, optionally followed by one newline; an accepted value has no comma, backtick, quote or semicolon |
| SqlEscape.OrderDirectionUnanchored | includes/sql.include.php:49-50 | ORDER_DIRECTION accepts `ASC` and `DESC`, accepts `ASC; DROP TABLE posts`, and refuses lower-case `asc` |
| SqlEscape.HourRange | includes/sql.include.php:55 | the hour group accepts exactly two digits reading 00 to 23 |
| SqlEscape.DateTimeFields | includes/sql.include.php:55 | the date-time part accepts exactly digits in the field positions, the separators `-`, `T` or space, and `:`, with month at most 12, day at most 31, hour at most 23, and minute and second at most 59 |
| SqlEscape.IsoCompose | includes/sql.include.php:55 | a date-time followed by an optional fraction and an optional offset is accepted by ISO8601 |
| SqlEscape.Iso8601OutOfRange | includes/sql.include.php:52-55 | month 13 and hour 24 are refused |
| SqlEscape.Iso8601InRange | includes/sql.include.php:52-55 | `2024-01-01T00:00:00Z` and `2024-01-01 00:00:00` are accepted |
| SqlEscape.Iso8601ZeroDate | includes/sql.include.php:55 | month 00 and day 00 are accepted, with a fraction and a colon-less offset |
| SqlEscape.Iso8601HalfOffset | includes/sql.include.php:55 | an offset made of an hour and a colon, without minutes, is accepted |
| SqlSpec.FirstErrorStep | includes/sql.include.php:105-120 | in a walk that aborts on the first exception, after a passing prefix the next item either passes or its failure is the result of the whole walk |
| SqlSpec.FirstErrorCharacterized | includes/sql.include.php:105-120 | a walk passes exactly when every item passes; a failing walk reports the error of the first failing item, and all items before it passed |
| SqlSpec.CheckColumnSpecMeaning | includes/sql.include.php:109-113 | a column passes exactly when its type matches DB_TYPE and its name matches COLUMN; the type is checked first, so its error wins |
| SqlSpec.CheckForeignKeyMeaning | includes/sql.include.php:140-142 | a foreign key passes exactly when the table and the reference both match COLUMN; the table's error wins |
| SqlSpec.ColumnListSnoc | includes/sql.include.php:115-119 | each column adds its backticked definition, preceded by `, ` except for the first |
| SqlSpec.ForeignKeyListSnoc | includes/sql.include.php:144-148 | each foreign key adds `, ` followed by its column definition, `, ` and its FOREIGN KEY constraint |
| SqlSpec.CreateBodyJoin | includes/sql.include.php:163-166 | with at least one column, the column list followed by the foreign-key clauses is the `, `-join of all column definitions and then, per key, its column and its constraint |
| SqlSpec.TableElementsLength | includes/sql.include.php:144-148 | the body has one element per column and two per foreign key |
| SqlSpec.TableElementsCommaFree | includes/sql.include.php:109-148 | when every column and key passes its checks, no element of the body contains a comma |
| SqlSpec.CreateRejects | includes/sql.include.php:162-167 | `create` fails exactly when some column or some given foreign key fails its checks; the table name never decides failure |
| SqlSpec.CreateWithoutColumns | includes/sql.include.php:162-170 | with no columns and passing keys, `create` still succeeds: the head is followed directly by the key clauses and `);`, so the body starts with `, ` when there are keys and is empty when there are none |
| SqlSpec.CreateParses | includes/sql.include.php:162-170 | a successful `create` with at least one column is the CREATE TABLE head, then a body that splits at `, ` back into exactly the column definitions and key clauses, then `);` |
| SqlSpec.ConjunctsSnoc | includes/sql.include.php:214-218 | the conjunct list of one more condition ends with that condition's conjunct |
| SqlSpec.WhereTextSnoc | includes/sql.include.php:209-218 | one more condition adds ` WHERE` if it is the first, ` AND` otherwise, then its conjunct |
| SqlSpec.WhereExtend | includes/sql.include.php:209-218 | when the prefix succeeded and the next condition passes, the clause is extended by exactly ` WHERE` or ` AND` and that conjunct |
| SqlSpec.WhereRejects | includes/sql.include.php:187-207 | `where` fails exactly when some condition fails one of its checks |
| SqlSpec.WhereAcceptsOnlyChecked | includes/sql.include.php:187-207 | in a successful `where`, every column matches COLUMN and has no backtick, quote or semicolon, every operator and escape is a known constant, and every value, or every element of an array value, matches its escape |
| SqlSpec.PolicyBinding | includes/sql.include.php:240-258 | `SqlSpec.PolicyFor`, the `switch`, binds `type` to POST_TYPE, `tags` to TAG, `slug` to SLUG and both `published` and `updated` to ISO8601, each if and only if the key is exactly that text; every other key gets NONE, and COLUMN, DB_TYPE and ORDER_DIRECTION are never chosen |
| SqlSpec.CheckEntryMeaning | includes/sql.include.php:234-259 | an INSERT entry passes exactly when its key matches COLUMN and its value matches the pattern `PolicyFor` selects for the key; the key's error wins |
| SqlSpec.InsertListsSnoc | includes/sql.include.php:260-261 | each entry appends its backticked key and a comma to the key list, and its quoted value and a comma to the value list |
| SqlSpec.InsertListsDone | includes/sql.include.php:264 | cutting the trailing comma off both lists gives exactly the `,`-joins inside ` (...) VALUES (...)` |
| SqlSpec.InsertRejects | includes/sql.include.php:234-259 | `insert` fails exactly when some key fails COLUMN or some value fails the pattern its key selects |
| SqlSpec.QuotedKeysPlain | includes/sql.include.php:236-260 | once every key has passed COLUMN, no backticked key contains a comma or a closing parenthesis |
| SqlSpec.InsertColumnsParse | includes/sql.include.php:260-264 | a successful non-empty `insert` starts with ` (`, the text up to the first `)` splits at commas back into exactly the backticked keys, and the rest is `) VALUES (`, the quoted values joined by commas in row order, and `)` |
| SqlBuilder.Sql.constructor | includes/sql.include.php:81-83 | the helper keeps the connection's quoting function |
| SqlBuilder.Sql.PropsToString | includes/sql.include.php:103-123 | the loop returns the error of the first failing column, or else the `, `-separated list of backticked names and types; no columns give the empty string, which stands for the PHP `null` |
| SqlBuilder.Sql.ForeignKeyToString | includes/sql.include.php:131-152 | the loop returns the error of the first failing key, or else each key's column definition and constraint, each preceded by `, ` |
| SqlBuilder.Sql.Create | includes/sql.include.php:162-170 | the statement is the head, the column list, the key clauses when the keys are given and non-empty, then `);`; any error of the columns or keys is returned instead |
| SqlBuilder.Sql.Where | includes/sql.include.php:179-221 | the clause is ` WHERE` and the first conjunct, then ` AND` and each later conjunct; the error of the first failing condition is returned instead |
| SqlBuilder.Sql.CheckedConjunct | includes/sql.include.php:182-218 | one condition is checked in order (operator, escape, column, value) and the first failure is returned; otherwise the result is the backticked column, the operator and the quoted value or the parenthesised list of quoted elements |
| SqlBuilder.Sql.QuoteEach | includes/sql.include.php:199-203 | each element of an array value is checked and overwritten by its quoted form; the first failing element's error is returned instead |
| SqlBuilder.Sql.Insert | includes/sql.include.php:230-265 | the result is ` (` and the backticked keys, then `) VALUES (` and the quoted values, then `)`, comma-separated in row order; the first failing entry's error is returned instead |
| SqlExamples.CreatePosts | includes/sql.include.php:162-170 | `create("posts", [id INTEGER PRIMARY KEY, title TEXT NOT NULL])` gives the exact CREATE TABLE text |
| SqlExamples.CreateCommentsWithForeignKey | includes/sql.include.php:144-148 | a foreign key to `posts(id)` adds the column `posts_id INTEGER NOT NULL` and its FOREIGN KEY constraint, in that order |
| SqlExamples.CreateEmptyTable | includes/sql.include.php:162-170 | with no columns and no foreign keys, the statement for table `t` is the CREATE TABLE head followed directly by `);` |
| SqlExamples.CreateRefusesInjection | includes/sql.include.php:113 | a column name carrying a backtick and SQL is refused with an error naming it |
| SqlExamples.CreateReportsFirstFailure | includes/sql.include.php:105-113 | when one column has a bad type and a later one has a bad name, the first column's type is the error reported |
| SqlExamples.WhereTwoConditions | includes/sql.include.php:209-218 | a scalar and a list condition give ` WHERE` with the first conjunct and ` AND` with the second, whose elements are quoted one by one |
| SqlExamples.WhereRefusesOperator | includes/sql.include.php:188-190 | an operator outside `SQLOP` (`OR`) is refused with an error naming it |
| SqlExamples.WhereRefusesEscape | includes/sql.include.php:191-193 | an escape outside `SQLEscape` is refused with an error naming it |
| SqlExamples.WhereRefusesElement | includes/sql.include.php:199-203 | one bad element of an array value (`x' OR 1=1`) makes the whole call fail with that element |
| SqlExamples.InsertPolicyBinding | includes/sql.include.php:240-261 | a row with `type`, `tags`, `slug` and `title`, whose values pass POST_TYPE, TAG (the comma in `a,b` included), SLUG and NONE, gives the exact key and value lists in row order |
| SqlExamples.InsertRefusesBadType | includes/sql.include.php:242-259 | `type: "123"` fails POST_TYPE, and the whole insert fails with that value |
| SqlExamples.InsertEmpty | includes/sql.include.php:264 | an empty row gives ` () VALUES ()` |

## Left out

- `PDO::quote` is a parameter of `Sql` with no properties assumed. Quoting's own escaping, and its `false` result for drivers that cannot quote, are not modelled.
- `lib/enum.php` is not part of this model. `isValidValue` is taken as an exact, case-sensitive test on the constant values, which `ParseOp` and `ParseEscape` state.
- The `SQLType` constants (`includes/sql.include.php:58-69`) are not used by the helper and are not modelled.
- The rest of the repository is not part of this model: configuration, the Micropub endpoints, media upload and themes.
- Strings are sequences of characters. PHP's byte strings and the byte-oriented PCRE matching are not distinguished from them; "7-bit" is read as a code point below 128.
- Arrays with non-sequential keys are not modelled. Inputs are sequences, so the first item is always index 0. A PHP array whose first key is not 0 would get a leading `, ` or ` AND`.
- Duplicate INSERT keys are possible in a sequence but not in a PHP array. The model simply emits them twice.
- Values are strings only. Integers or other scalars, which PHP would convert, and nested arrays are not modelled.
- SqlBuilder.Sql.Where: returns `Ok("")` where the PHP returns `null` for an empty condition list. The model's strings have no null; the two only differ to a caller that tests for null rather than concatenating.
- SqlBuilder.Sql.PropsToString: returns `Ok("")` where the PHP returns `null` for an empty column list. Its only caller, `create`, interpolates that as the empty string, so `SqlBuilder.Sql.Create` is unaffected.
- Exception messages are reduced to the `Error` datatype carrying the offending text. The message wording and the exception code are not kept.
- The constructor takes the connection by reference. The model keeps only the quoting function, so sharing the connection object is not captured.
- `SqlBuilder.Sql.QuoteEach` updates a local copy of the array value, as PHP's by-value array does. Whether the caller's array changes is not observable and is not modelled.
