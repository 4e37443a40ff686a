# netmap-ql placement-query parser, in Dafny

This project models the parser of netmap-ql's placement queries. A query such as

    RF 4 SELECT 1 Country 2 City FILTER Location NE Europe ; SELECT 1 Country

becomes a placement rule. The rule holds a replication factor and a non-empty list of groups. Each
group holds selectors (`count key`) and optional filters (`key operation value`).

The parser is a backtracking recursive-descent parser, built from parser combinators over a
cursor into the input. The model threads that cursor through every parser as a position `i` into
the string `s`. A parser replies either `Success(value, pos)` or `Failure(pos)`. The `pos` of a
failure is where the failing parser left the cursor. Most parsers put it back. `parseOperation`
and the end-of-input check of `sfUnion` do not, and the model keeps that difference.

Modules:

- `Parsec` (parsec.dfy): the library combinators the parser is built from. These are `Satisfy`,
  `String` (here `Literal`), `Many` and `Many1`, plus the character classes.
- `Netmap` (netmap.dfy): the values the parser produces. These are `Operation`, `Filter`,
  `Select`, `SFGroup`, `PlacementRule` and Go's `uint32`.
- `Query` (query.dfy): `forceCollect`, `trySucceed`, the token parsers and the grammar rules, as
  functions. The lists that `forceCollect` gathers are lists of a closed sum type, `Item`. Each
  type assertion of the source is a precondition, and shape lemmas prove that it holds.
- `QueryExec` (query_exec.dfy): the loops of the source, as methods with loop invariants. These
  are forceCollect's walk over its parsers with the cursor restore, the accumulation loops of
  the token parsers, and the append loops of `filterGroup`, `sfGroup` and `sfUnion`. Each method
  returns exactly what the `Query` function specifies.
- `QueryFacts` (query_facts.dfy): what the parser promises, stated against definitions that do
  not share its code:
  - the two spellings of each operation;
  - the unbounded decimal value of a digit string;
  - a direct reading of every grammar rule in terms of skipped whitespace, keywords and tokens
    (`ReplFactorSpec`, `SelectorRowSpec`, `FilterRowSpec`, `SfGroupSpec`, `NextGroup`,
    `UnionSpec`), each proved equal to the parser it reads;
  - the order of selectors, filters and groups;
  - the position where a successful parse must end.
- `QueryShift` (query_shift.dfy): every direct reading looks only at the text from its start
  onwards, so whitespace put in front of a query changes neither the rule nor the error.
- `QueryCases` (query_cases.dfy): the thirteen queries of the parser's tests, worked through the
  model token by token. Six are accepted with the expected rule, and seven are rejected.

## Model

| member | source | states |
|---|---|---|
| `Parsec.Many` | query.go:12 | Many always succeeds and never moves the cursor backwards or past the end. With an atomic parser, it stops exactly where the parser fails. |
| `Parsec.Many1` | query.go:13 | Many1 fails exactly when the first application fails, at the same position. Otherwise it returns at least one result and consumes input. |
| `Parsec.SatisfyReply` | query.go:12-13 | Satisfy succeeds exactly when the character at the cursor satisfies the predicate, and then returns that character and consumes it alone. A failure consumes nothing. |
| `Parsec.LiteralReply` | query.go:62 | String(word) succeeds exactly when the input continues with word, and then returns word and consumes exactly it. A failure consumes nothing. |
| `Parsec.SatisfyAdvances` | query.go:12 | Satisfy consumes exactly one character on success and nothing on failure. |
| `Parsec.ManySatisfy` | query.go:12 | Many over Satisfy(pred) returns exactly the maximal run of characters satisfying pred. |
| `Parsec.Many1Satisfy` | query.go:145 | Many1 over Satisfy(pred) fails without consuming exactly when the character at the cursor does not satisfy pred. Otherwise it returns the maximal run, which is non-empty. |
| `Parsec.ManyYields` | query.go:80-81 | Every element Many returns is a value the repeated parser can return. This is why the type assertions on the elements hold. |
| `Parsec.Many1Yields` | query.go:104-107 | The same for Many1. |
| `Parsec.ManyInOrder` | query.go:122-125 | Many returns results in reading order. The k-th result is what the parser returned where the (k-1)-th stopped. Many ends where the first failing application left the cursor. |
| `Parsec.Many1IsMany` | query.go:94 | A successful Many1 returns the same results as Many. |
| `Parsec.Many1Once` | query.go:94 | Many1 of a parser that succeeds once and then fails returns that single result. |
| `Query.ForceCollect` | query.go:189-205 | On failure the cursor is back where forceCollect started. On success there is exactly one result per parser. |
| `Query.ForceCollectInOrder` | query.go:191-203 | On success the k-th result is what the k-th parser returned, started where the (k-1)-th stopped. forceCollect fails exactly when some parser fails where the previous ones left the cursor. |
| `Query.ForceCollectEnd` | query.go:193-203 | forceCollect succeeds exactly when every parser got its turn, and then ends where the last one did. On failure, the last parser to run failed. |
| `Query.ForceCollectStep` | query.go:194-201 | Each parser that got its turn succeeded from its start position. It ended where the next one started, and its value is the corresponding result. |
| `Query.StopsLength` | query.go:193-202 | There is one cursor position per parser that got its turn, plus the start, and the first is where forceCollect started. |
| `Query.ForceCollectNext` | query.go:194-201 | After the k-th parser has had its turn, the next one gets its turn exactly when the k-th succeeded, and it starts where the k-th ended. |
| `Query.ForceCollectAll` | query.go:193-203 | Conversely, if each parser succeeds where the previous stopped, forceCollect returns their results in order and ends where the last one did. |
| `Query.ForceCollectFails` | query.go:194-198 | If a parser fails after all earlier ones succeeded, forceCollect fails with the cursor at its start. |
| `Query.ForceCollectMoves` | query.go:189-205 | If every parser moves forward, forceCollect never moves the cursor backwards or past the end. |
| `Query.ForceCollectAdvances` | query.go:189-205 | If one of the parsers always consumes input, a successful forceCollect consumes input. |
| `Query.TrySucceed` | query.go:207-212 | trySucceed always succeeds. When the parser fails, it returns Nil with the cursor unchanged. Otherwise it returns the parser's reply. |
| `Query.FoldDigits` | query.go:182-185 | The uint32 fold `r*10 + d` over a digit string is the string's unbounded decimal value modulo 2^32: the arithmetic wraps. |
| `Query.ParseNumber` | query.go:176-187 | parseNumber fails without consuming exactly when no digit is at the cursor (this covers empty input). Otherwise it consumes the maximal digit run and returns the uint32 left fold `r*10 + d` over it. |
| `Query.ParseString` | query.go:161-173 | parseString fails without consuming exactly when no letter or digit is at the cursor. Otherwise it returns the maximal run of letters and digits. |
| `Query.ParseOperation` | query.go:144-159 | parseOperation reads the maximal non-space run. It succeeds exactly when the run is in the operator table, and then returns the table's operation. An unknown run fails with the cursor after it. |
| `Query.Ws` | query.go:12 | ws always succeeds and moves forward within the input. |
| `Query.Ws1` | query.go:13 | ws1 consumes input on success and nothing on failure. |
| `Query.KeywordMoves` | query.go:62 | String(word) consumes nothing on failure. For a non-empty word, it consumes input on success. |
| `Query.ReplFactor` | query.go:61-67 | replFactor never moves backwards, and a failure consumes nothing. |
| `Query.ReplFactorShape` | query.go:66 | The fourth result of replFactor's forceCollect is a number. |
| `Query.FilterRowItem` | query.go:72 | A `key operation value` row consumes input. Its second, fourth and sixth results are a string, an operation and a string. |
| `Query.FilterRowShape` | query.go:81-84 | Same shape, proved from the row's parsers. |
| `Query.FilterRowItems` | query.go:81-84 | A filter row that was read holds a key string, an operation and a value string at the places the loop reads them. |
| `Query.FilterRowsItem` | query.go:72 | The rows of a FILTER clause are a non-empty list of such rows. |
| `Query.FilterGroup` | query.go:69-89 | filterGroup consumes input on success and returns at least one filter. A failure consumes nothing. |
| `Query.FilterGroupShape` | query.go:79-80 | The second result of filterGroup's forceCollect is a non-empty list of filter rows. |
| `Query.SelectorItem` | query.go:94 | A `count key` row consumes input. Its second and fourth results are a number and a string. |
| `Query.SelectorShape` | query.go:104-107 | Same shape, proved from the row's parsers. |
| `Query.SelectorsItem` | query.go:94 | The selectors of a group are a non-empty list of such rows. |
| `Query.FilterClauseItem` | query.go:95 | The `ws1 filterGroup` clause, when present, carries the filters as its second result. |
| `Query.FilterClauseShape` | query.go:113 | Same shape, proved from the clause's parsers. |
| `Query.OptFilterClauseItem` | query.go:95 | The optional FILTER clause always succeeds, with Nil or a filter clause. |
| `Query.SfGroup` | query.go:91-117 | sfGroup consumes input on success and returns at least one selector. A failure consumes nothing. |
| `Query.SfGroupShape` | query.go:101-113 | The type assertions of sfGroup hold. The selectors are a non-empty list of rows, and the filter result is nil or a clause. |
| `Query.UnionRowItem` | query.go:122-125 | A `; SELECT ...` part consumes input, and its fourth result is a group. |
| `Query.UnionRowShape` | query.go:139 | Same shape, proved from the part's parsers. |
| `Query.UnionRowsItem` | query.go:122-125 | The `; SELECT ...` parts always succeed, as a list of such parts. |
| `Query.SfUnion` | query.go:119-142 | On success, sfUnion returns at least one group and has consumed the whole input. |
| `Query.SfUnionShape` | query.go:136-139 | The first result is a group and the second a list of `; SELECT ...` parts. |
| `Query.OptReplFactorItem` | query.go:43 | The optional RF clause always succeeds, with Nil or a number. |
| `Query.ParseRule` | query.go:42-59 | parseRule never moves backwards, and a failure consumes nothing. A success holds at least one group and has consumed the whole input. |
| `Query.ParseQuery` | query.go:33-40 | ParseQuery accepts exactly when parseRule succeeds from the start of the string, and then the rule holds at least one group. Every rejection carries the one message `cant parse query`. |
| `Query.RuleShape` | query.go:48-57 | The first result of parseRule's forceCollect is nil or a number, and the second is the list of groups. |
| `QueryExec.ForceCollect` | query.go:189-205 | The loop that saves the cursor, appends each parser's result and restores the cursor on the first failure returns exactly `Query.ForceCollect`. |
| `QueryExec.ParseNumber` | query.go:176-187 | The fold loop over the digits, in uint32 arithmetic, returns exactly `Query.ParseNumber`. |
| `QueryExec.CollectRunes` | query.go:150-153 | The rune-append loop returns the collected characters unchanged and in order. |
| `QueryExec.ParseString` | query.go:161-173 | Returns exactly `Query.ParseString`. |
| `QueryExec.ParseOperation` | query.go:144-159 | Returns exactly `Query.ParseOperation`, including the failure after an unknown token. |
| `QueryExec.FilterGroup` | query.go:69-89 | The append loop over the rows returns exactly `Query.FilterGroup`: one filter per row, in order. |
| `QueryExec.SfGroup` | query.go:91-117 | The append loop over the selector rows, and the filters of the optional clause, give exactly `Query.SfGroup`. |
| `QueryExec.SfUnion` | query.go:119-142 | The end-of-input check and the append loop over the `; SELECT ...` parts give exactly `Query.SfUnion`. |
| `QueryExec.GroupsAppended` | query.go:137-141 | The appended slice is the first group followed by the group of each part, in order. |
| `QueryFacts.OperatorTable` | query.go:14-27 | The table holds exactly the mnemonic and the symbolic spelling of each of the six operations, and maps both to that operation. |
| `QueryFacts.ParseOperationToken` | query.go:144-159 | For a non-space token followed by whitespace or the end: the cursor ends after the token, and parsing succeeds exactly when the token is in the table, with the table's operation. |
| `QueryFacts.ParseOperationSpellings` | query_test.go:38-42 | Each of the 12 spellings parses to its operation. |
| `QueryFacts.ParseOperationUnknown` | query.go:155-158 | A whole input that is not in the table fails, with the cursor after it. |
| `QueryFacts.ParseOperationRejects` | query_test.go:44-48 | `EE`, `>>` and `===` fail. |
| `QueryFacts.DecimalDigits` | query_test.go:60 | The decimal rendering of n is a non-empty digit string whose value is n. |
| `QueryFacts.ParseNumberDigits` | query.go:176-187 | A digit string followed by a non-digit or the end parses to its decimal value modulo 2^32, consuming exactly the digits. |
| `QueryFacts.ParseNumberDecimal` | query.go:176-187 | The decimal rendering of any n parses to n modulo 2^32. |
| `QueryFacts.ParseNumberRoundTrip` | query_test.go:58-63 | Every uint32 parses back from its decimal rendering. |
| `QueryFacts.ParseNumberWraps` | query.go:184 | `4294967296` parses to 0: the fold wraps around. |
| `QueryFacts.SkipSpace` | query.go:12 | The first position at or after j that does not hold whitespace. |
| `QueryFacts.SkipSpaceMaximal` | query.go:12 | The end of a maximal whitespace run is that position. |
| `QueryFacts.NumberAtParse` | query.go:176-187 | parseNumber equals the direct reading: the uint32 fold over the digits up to the first non-digit, and a failure without consuming when no digit is at the cursor. |
| `QueryFacts.IdentAtParse` | query.go:161-173 | parseString equals the direct reading: the letters and digits up to the first other character, and a failure without consuming when there are none. |
| `QueryFacts.OperationAtParse` | query.go:144-159 | parseOperation equals the direct reading: the characters up to the next whitespace, looked up in the table. An unknown token fails with the cursor after it. |
| `QueryFacts.WsSkips` | query.go:12 | ws skips exactly the whitespace at the cursor. |
| `QueryFacts.Ws1Skips` | query.go:13 | ws1 succeeds exactly on whitespace, and then skips all of it. |
| `QueryFacts.KeywordAt` | query.go:62 | String(word) succeeds exactly when the word's characters are at the cursor, and then consumes them. |
| `QueryFacts.KeywordRF` | query.go:62 | String("RF") succeeds exactly on `R` then `F`. |
| `QueryFacts.ReplFactorKeyword` | query.go:62 | replFactor gets past `RF` exactly when RF follows the leading whitespace. |
| `QueryFacts.ReplFactorSpace` | query.go:62 | replFactor then gets past ws1 exactly when whitespace follows RF. |
| `QueryFacts.ReplFactorNumber` | query.go:62-66 | replFactor then succeeds exactly when a number follows, with that number. |
| `QueryFacts.ReplFactorSteps` | query.go:61-67 | replFactor succeeds exactly when `ws RF ws1 number` is at the cursor, with the number and its end. |
| `QueryFacts.ReplFactorMeaning` | query.go:61-67 | replFactor equals the direct reading: optional whitespace, `RF`, at least one whitespace character, then a number. Anything else fails and consumes nothing. |
| `QueryFacts.SelectorRowNumber` | query.go:94 | A `count key` row gets past its leading whitespace exactly when there is some, and past the number exactly when parseNumber succeeds where the whitespace ends. |
| `QueryFacts.SelectorRowKey` | query.go:94 | It then gets past the second whitespace exactly when there is some, and reads the key exactly when parseString succeeds where that whitespace ends. |
| `QueryFacts.SelectorRowMeaning` | query.go:94 | A `count key` row equals its direct reading: whitespace, a number, whitespace and a key, giving the selector with that key and count. Any missing part fails without consuming. |
| `QueryFacts.FilterRowKey` | query.go:72 | A `key operation value` row gets past its leading whitespace exactly when there is some, and past the key exactly when parseString succeeds there. |
| `QueryFacts.FilterRowOperation` | query.go:72 | It then gets past the second whitespace exactly when there is some, and past the operation exactly when parseOperation succeeds there. |
| `QueryFacts.FilterRowValue` | query.go:72 | It then gets past the third whitespace exactly when there is some, and reads the value exactly when parseString succeeds there. |
| `QueryFacts.FilterRowMeaning` | query.go:72 | A filter row equals its direct reading: key, operation and value, each after at least one whitespace character, giving that filter. A missing part or an unknown operation fails without consuming. |
| `QueryFacts.SelectsOfCons` | query.go:103-109 | The selectors of a list of rows, one row at a time. |
| `QueryFacts.FiltersOfCons` | query.go:78-87 | The filters of a list of rows, one row at a time. |
| `QueryFacts.SelectorRowsMeaning` | query.go:94 | The rows Many gathers are the selectors that follow one another in the text, in order, and Many ends where the last one ends. |
| `QueryFacts.FilterRowsMeaning` | query.go:72 | The same for the rows of a FILTER clause. |
| `QueryFacts.SelectorsMeaning` | query.go:94 | The selector list succeeds exactly when at least one row follows SELECT, and gives the selectors of all the rows that follow one another. |
| `QueryFacts.FilterRowsItemMeaning` | query.go:72 | The rows of a FILTER clause succeed exactly when at least one row follows, and give the filters of all the rows that follow one another. |
| `QueryFacts.FilterGroupMeaning` | query.go:69-89 | filterGroup equals its direct reading: the word FILTER and then one filter row or more, giving their filters in order. Anything else fails without consuming. |
| `QueryFacts.FilterClauseMeaning` | query.go:95 | The clause after the selectors succeeds exactly when whitespace and a FILTER group follow, and carries that group's filters. |
| `QueryFacts.SfGroupKeyword` | query.go:93 | sfGroup's forceCollect gets past SELECT exactly when SELECT follows the leading whitespace. |
| `QueryFacts.SfGroupSelectors` | query.go:94 | It then gets past the selector list exactly when the list succeeds after SELECT. |
| `QueryFacts.SfGroupClause` | query.go:95 | After the selector list, the optional clause always lets forceCollect finish. |
| `QueryFacts.SfGroupResults` | query.go:101-116 | A group holds the selectors of its rows. Its filters are the clause's when a clause was read, and empty otherwise; the group then ends after the clause or after the selectors. |
| `QueryFacts.SfGroupSpec` | query.go:91-117 | The direct reading of a group consumes nothing on failure. On success it consumes input and holds at least one selector. |
| `QueryFacts.SfGroupMeaning` | query.go:91-117 | sfGroup equals its direct reading: optional whitespace, SELECT, the selector rows, and the FILTER clause if one can be read there. Without one, the group has no filters and ends after the selectors. |
| `QueryFacts.NextGroup` | query.go:122-125 | The direct reading of a `; SELECT ...` part consumes input on success and nothing on failure. |
| `QueryFacts.KeywordSemicolon` | query.go:123 | String(";") succeeds exactly on a semicolon. |
| `QueryFacts.UnionRowSemicolon` | query.go:123 | A part gets past `;` exactly when a semicolon follows the whitespace. |
| `QueryFacts.UnionRowGroupStart` | query.go:123-124 | After the semicolon, the group starts after the following whitespace. |
| `QueryFacts.UnionRowSteps` | query.go:122-125 | A part succeeds exactly when a semicolon and then a group follow, and it ends where the group ends. |
| `QueryFacts.UnionRowMeaning` | query.go:122-125 | A part agrees with its direct reading. |
| `QueryFacts.GroupsOfCons` | query.go:138-140 | The groups of a list of parts, one part at a time. |
| `QueryFacts.UnionRowsMeaning` | query.go:122-125 | The parts gathered by Many yield the groups that follow one another in the text, in order, and end where the last one ends. |
| `QueryFacts.SfUnionMeaning` | query.go:119-142 | sfUnion is a group, then the groups of the following parts in textual order, then the end of input. Any character left over, whitespace included, fails at that character. |
| `QueryFacts.SfGroupSelectorsInOrder` | query.go:103-109 | The k-th selector of a group is the `count key` row read at the k-th position of the selector list. |
| `QueryFacts.FilterGroupInOrder` | query.go:78-87 | The k-th filter is the `key operation value` row read at the k-th position of the row list. |
| `QueryFacts.ParseRuleMeaning` | query.go:30-59 | parseRule is the optional RF clause, then the union from where the clause ended. The factor is the clause's number, or defaultReplFactor, 2, without one. Failure consumes nothing. |
| `QueryFacts.ParseQueryMeaning` | query.go:32-41 | ParseQuery returns the rule read directly: the RF number, or 2 without one, and at least one group. Any failure is the single error `cant parse query`. |
| `QueryFacts.ManyEnds` | query.go:122 | If every success of a parser ends after a letter or digit, so does Many (unless it read nothing) and Many1. |
| `QueryFacts.StringEnds` | query.go:161-173 | parseString ends after a letter or digit. |
| `QueryFacts.FilterRowEnds` | query.go:72 | A filter row ends after a letter or digit. |
| `QueryFacts.FilterGroupEnds` | query.go:69-89 | filterGroup ends after a letter or digit. |
| `QueryFacts.SelectorEnds` | query.go:94 | A selector row ends after a letter or digit. |
| `QueryFacts.OptFilterClauseEnds` | query.go:95 | The optional FILTER clause either reads nothing or ends after a letter or digit. |
| `QueryFacts.SelectorsEnds` | query.go:94 | The selector list ends after a letter or digit. |
| `QueryFacts.SfGroupEnds` | query.go:91-117 | sfGroup ends after a letter or digit. |
| `QueryFacts.UnionRowEnds` | query.go:122-125 | A `; SELECT ...` part ends after a letter or digit. |
| `QueryFacts.SfUnionEnds` | query.go:131-134 | A successful sfUnion means the input ends with a letter or digit. |
| `QueryFacts.ParseQueryEnds` | query.go:131-134 | A query that parses is non-empty and ends with a letter or digit. |
| `QueryFacts.TrailingCharacterRejected` | query.go:131-134 | Appending any character other than a letter or digit (a space, a newline, `;`) to any string gives `cant parse query`. |
| `QueryShift.SkipSpaceShift` | query.go:12 | Skipping whitespace in a text that holds `s` from position d on is skipping it in `s`, moved by d. |
| `QueryShift.ReplFactorShift` | query.go:61-67 | The RF clause read inside a longer text is the one read in `s`, with positions moved by d. |
| `QueryShift.SelectorRowShift` | query.go:94 | The same for a selector row. |
| `QueryShift.FilterRowShift` | query.go:72 | The same for a filter row. |
| `QueryShift.SfGroupShift` | query.go:91-117 | The same for a group. |
| `QueryShift.NextGroupShift` | query.go:122-125 | The same for a `; SELECT ...` part. |
| `QueryShift.UnionShift` | query.go:119-142 | The same for the union, including the failure at a leftover character. |
| `QueryShift.ReplFactorSameStart` | query.go:62 | The RF clause starts with optional whitespace, so two starts inside the same whitespace run read the same clause. |
| `QueryShift.SfGroupSameStart` | query.go:93 | The same for a group. |
| `QueryShift.UnionSameStart` | query.go:119-126 | The same for the union. |
| `QueryShift.SameQuery` | query.go:33-59 | Two texts whose RF clauses and unions read alike parse to the same rule or to the same error. |
| `QueryShift.LeadingWhitespace` | query.go:33-62 | Whitespace in front of a query changes nothing: for every all-whitespace `w`, `ParseQuery(w + s) == ParseQuery(s)`, rule and error alike. |
| `QueryCases.SelectOneCountry` | query_test.go:86-91 | `SELECT 1 Country` parses to replication factor 2 and one group: selector `Country` with count 1, no filters. |
| `QueryCases.ReplFactorTen` | query_test.go:93-98 | `RF 10 SELECT 1 Country` parses to replication factor 10 and the same group. |
| `QueryCases.FilterNotRussia` | query_test.go:100-106 | `SELECT 1 Country FILTER Country NE Russia` parses to one group with the filter `Country NE Russia`. |
| `QueryCases.FilterTrustAbove` | query_test.go:108-114 | `SELECT 11 Country FILTER Trust > 10` parses to count 11 and the filter `Trust GT 10`: the symbolic spelling gives the same operation. |
| `QueryCases.TwoSelectorsWithFactor` | query_test.go:116-125 | `RF 4 SELECT 1 Country 2 City FILTER Location NE Europe` parses to factor 4, two selectors in textual order, and the filter. |
| `QueryCases.TwoGroups` | query_test.go:127-147 | The two-group query, with newlines around `;`, parses to both groups in order, each with its selectors and filters. |
| `QueryCases.SelectWithoutKey` | query_test.go:14 | `SELECT 3` is rejected: the selector row lacks its key. |
| `QueryCases.TrailingCount` | query_test.go:15 | `SELECT 1 c 2` is rejected: the second row stops before its key, so `2` is left over. |
| `QueryCases.CountBeforeFilter` | query_test.go:16 | `SELECT 1 c 2 FILTER a EQ b` is rejected: the second selector row reads count 2 and key `FILTER`, after which ` a EQ b` is neither a row nor a clause and is left over. |
| `QueryCases.MisspelledSelect` | query_test.go:17 | `SELEC 1 c` is rejected: there is no SELECT keyword. |
| `QueryCases.UnknownOperation` | query_test.go:18 | `SELECT 1 c FILTER a EE b` is rejected: `EE` is not an operation, so there is no clause and the text after `c` is left over. |
| `QueryCases.UnknownOperationInUnion` | query_test.go:19 | `SELECT 1 c FILTER a EE b ; SELECT 3` is rejected the same way. |
| `QueryCases.FactorWithoutNumber` | query_test.go:20 | `RF SELECT 1 c` is rejected: RF without a number is no RF clause, and `RF` is no group. |
## Left out

- Character classes: `IsSpace` is the full Unicode White_Space set that `unicode.IsSpace` tests. Letters and digits are ASCII only. `unicode.IsLetter`, `unicode.IsDigit` and `unicode.IsNumber` also accept other scripts' letters and digits. Queries with non-ASCII identifiers or numbers are therefore outside the model.
- Query.ParseNumber: `unicode.IsNumber` also accepts non-ASCII numerals, and `c - '0'` gives them meaningless digit values. The model accepts only `0`-`9`.
- Query.ParseQuery: the source returns a `*netmap.PlacementRule` and an `error` made by `errors.New("cant parse query")`. The model returns the rule as a value, or the error's message.
- The error carries no input text. Some descriptions of the parser say it does, but the code returns only the fixed message, and the model follows the code.
- Trailing whitespace: the code rejects any character left after the last group, whitespace included, because `in.Next()` accepts any character. The model follows the code, not the reading that only non-whitespace leftovers fail.
- Whitespace elsewhere: `QueryShift.LeadingWhitespace` proves that whitespace in front of a query changes nothing. That extra whitespace between tokens and around `;` changes nothing is not stated as one lemma. It follows from the direct readings, where every run of whitespace is skipped whole by `SkipSpace`, but there is no lemma that compares two texts differing inside a query.
- Parsec.Many: requires the repeated parser to consume input on success. The library would loop forever otherwise, but every parser the query grammar repeats meets this.
- The vessel's state other than its position (`GetState`/`SetState`) is not modelled. The query parsers never change it, so restoring the position is what forceCollect's restore amounts to here.
- `parsec.Try` inside `trySucceed` is not modelled as a separate step. Its effect, putting the cursor back when the parser fails, is part of `Query.TrySucceed`.
- The untyped `interface{}` results of the combinators become the closed sum type `Item`. A failed type assertion would panic in Go. The model proves the assertions hold, and its shape lemmas show that no such panic can happen.
- `netmap.NewFilter` and the internals of the `netmap` package are not part of this model. A `Filter` keeps the key, the operation and the value string.
- Go's nil slice (no FILTER clause) is the empty sequence here. The capacity hints of `make` are not modelled.
- cmd/repl/main.go is not part of this model: it is an interactive shell doing file and process I/O.
- alias.go only re-exports the `netmap` types, which are the datatypes of module `Netmap`.
- Go's package-level `ws` and `ws1` values are the functions `Query.Ws` and `Query.Ws1`.
