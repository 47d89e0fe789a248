# typedorm expression builder, modelled in Dafny

typedorm's expression builder turns attribute paths and update values into
Amazon DynamoDB expression strings with placeholders. Each result also
carries the `ExpressionAttributeNames` / `ExpressionAttributeValues` side
tables that map the placeholders back to literal path segments and values.
This project models the four build operations whose behaviour the
repository's test suite pins down, and proves properties of them:

- `buildConditionExpression` and `buildFilterExpression` render an
  `attribute_not_exists(<path>)` leaf. They use ancestry naming under the
  scopes `CE` and `FE`: segment j of a path becomes `#<scope>_<s0>_..._<sj>`,
  and the rendered path joins those tokens with dots. One shared routine
  (`RenderCondition`) serves both; only the scope and the output key differ.
- `buildUpdateExpression` uses positional naming. Entry k of the mapping, in
  insertion order, names a one-segment path `#attr<k>` and segment j of a
  dotted path `#attr<k>_inner<j>`. Its value is `:val<k>`. An absent
  (`undefined`) value is stored as `null`; every other value, the empty
  string and arrays included, is stored unchanged. The clauses
  `<tokens joined by '.'> = :val<k>` are joined with `, ` after one leading
  `SET `.
- `buildProjectionExpression` renders each path with ancestry naming under
  `PE` and joins the rendered paths with `, `. The model builds its names
  table by merging each path's entries in turn, with JavaScript object
  assignment semantics.
- Paths are split on `.` only, so a bracket index such as `address[0]` or
  `object[1]` stays part of its segment.

The code is pure, so the model is pure too: datatypes, functions and lemmas.

- `Wrappers`: `Option`.
- `Text`: splitting on one character, joining with a separator, decimal rendering of indices.
- `Values`: the JSON-like values an update may assign.
- `Paths`: path parsing.
- `Placeholders`: the side tables as ordered `(token, entry)` sequences; the two naming strategies and their token spaces.
- `ExpressionBuilder`: the four build operations and their general properties.
- `ExpressionBuilderCases`: every case of the test suite, stated as the exact result, together with the general shapes behind them.

A result table is `None` when it would be empty, because the result then
has no such key. The builder keeps no state between calls. Every build
operation is a function of its input alone, so two calls on equal inputs
return equal results. This is the guarantee behind the suite's single
shared builder instance (line 6). The same holds for its two identical
condition tests (lines 11-22 and 24-35); `ConditionPK` states their common
result.

## Model

All source paths below are relative to the repository root.

| member | source | states |
|---|---|---|
| Text.NatToDecimal | packages/core/src/classes/expression/__test__/expression-builder.spec.ts:84-101 | an index renders as a non-empty run of decimal digits, with a leading `0` exactly for index 0 |
| Text.DecimalRoundTrip | packages/core/src/classes/expression/__test__/expression-builder.spec.ts:84-101 | reading the digits of a rendered index back gives the index |
| Text.DecimalInjective | packages/core/src/classes/expression/__test__/expression-builder.spec.ts:84-101 | two indices render to the same digits if and only if they are equal |
| Text.DigitRunUnique | packages/core/src/classes/expression/__test__/expression-builder.spec.ts:86-94 | a run of digits followed by text that does not start with a digit splits back into that run and that text in only one way, so `#attr1_inner2` cannot be read another way |
| Text.Split | packages/core/src/classes/expression/__test__/expression-builder.spec.ts:56-66 | splitting gives at least one piece, and no piece contains the separator |
| Text.JoinSplit | packages/core/src/classes/expression/__test__/expression-builder.spec.ts:56-66 | joining the pieces of a string with the separator gives the string back |
| Text.SplitJoin | packages/core/src/classes/expression/__test__/expression-builder.spec.ts:56-66 | splitting separator-free pieces joined by the separator gives exactly those pieces back |
| Text.JoinSnoc | packages/core/src/classes/expression/__test__/expression-builder.spec.ts:84 | joining one more part appends the separator and that part |
| Text.JoinPrefixLonger | packages/core/src/classes/expression/__test__/expression-builder.spec.ts:155-156 | a longer chain of the same segments joins to a strictly longer string, so `#FE_profile` and `#FE_profile_deleted` differ |
| Values.StoredValue | packages/core/src/classes/expression/__test__/expression-builder.spec.ts:109-144 | the value table never holds `undefined`; `undefined` is stored as `null`, and every other value, `''` included, is stored unchanged |
| Paths.ParsePath | packages/core/src/classes/expression/__test__/expression-builder.spec.ts:56-66 | a path has at least one segment, no segment contains a dot, and the segments joined by dots are the path |
| Paths.ParseJoined | packages/core/src/classes/expression/__test__/expression-builder.spec.ts:73-94 | dot-free segments joined by dots parse back to exactly those segments |
| Paths.SingleSegment | packages/core/src/classes/expression/__test__/expression-builder.spec.ts:40-54 | a path is a single segment if and only if it has no dot, and that segment is the whole path |
| Paths.IndexedSegmentKept | packages/core/src/classes/expression/__test__/expression-builder.spec.ts:78-94 | a bracket index `name[i]` stays one segment, both as the whole path (`address[0]`) and as the last step of a dotted path (`object[1]`) |
| Placeholders.Put | packages/core/src/classes/expression/__test__/expression-builder.spec.ts:176-180 | assigning a key adds exactly that key; a new key goes last; a key already present keeps its position, with every key in place; a table without repeated keys keeps none |
| Placeholders.PutLookup | packages/core/src/classes/expression/__test__/expression-builder.spec.ts:176-180 | after an assignment the key looks up to the new value, and every other key looks up as before |
| Placeholders.DistinctAppend | packages/core/src/classes/expression/__test__/expression-builder.spec.ts:85-95 | two tables without repeats and with disjoint keys, placed side by side, have no repeat and the union of the keys |
| Placeholders.MergeIntoKeys | packages/core/src/classes/expression/__test__/expression-builder.spec.ts:176-180 | merging a path's entries into the table keeps the keys of both and adds no others |
| Placeholders.MergeIntoDistinct | packages/core/src/classes/expression/__test__/expression-builder.spec.ts:176-180 | merging into a table without repeated keys never repeats a key |
| Placeholders.MergeIntoAppends | packages/core/src/classes/expression/__test__/expression-builder.spec.ts:176-180 | when the new entries' keys are fresh and do not repeat, merging is plain appending in order |
| Placeholders.PositionalTokenParts | packages/core/src/classes/expression/__test__/expression-builder.spec.ts:86-94 | a positional token is `#attr`, the entry's digits and a suffix that starts with no digit |
| Placeholders.InnerSuffixInjective | packages/core/src/classes/expression/__test__/expression-builder.spec.ts:87-94 | the `_inner<j>` suffixes of two slots are equal if and only if the slots are equal |
| Placeholders.PositionalTokenInjective | packages/core/src/classes/expression/__test__/expression-builder.spec.ts:85-95 | two positional tokens are equal if and only if they name the same entry and the same segment slot |
| Placeholders.ValueTokenInjective | packages/core/src/classes/expression/__test__/expression-builder.spec.ts:96-102 | `:val<i>` and `:val<j>` are equal if and only if i = j |
| Placeholders.AncestryTokensDistinct | packages/core/src/classes/expression/__test__/expression-builder.spec.ts:154-157 | within one path, the ancestry tokens of different segments differ |
| Placeholders.ChainTokenEndsWithSegment | packages/core/src/classes/expression/__test__/expression-builder.spec.ts:154-157 | the ancestry token of segment j ends with `_` followed by that segment |
| Placeholders.AllocateDistinct | packages/core/src/classes/expression/__test__/expression-builder.spec.ts:85-95 | under either naming strategy, the entries of one path never repeat a key |
| Placeholders.TokenSpacesDisjoint | packages/core/src/classes/expression/__test__/expression-builder.spec.ts:11-54 | tokens of different scopes differ, scoped tokens differ from positional ones, and no name token is a value token, so tables of different expression kinds never collide |
| ExpressionBuilder.TableField | packages/core/src/classes/expression/__test__/expression-builder.spec.ts:16-21 | a result table is present exactly when it has entries, and then it is the table |
| ExpressionBuilder.BuildConditionExpression | packages/core/src/classes/expression/__test__/expression-builder.spec.ts:11-22 | a condition result has no values table, and its names table has one entry per segment with no repeated key: segment j's entry maps `#CE_<s0>_..._<sj>` to segment j |
| ExpressionBuilder.BuildFilterExpression | packages/core/src/classes/expression/__test__/expression-builder.spec.ts:149-160 | a filter result has no values table, and its names table has one entry per segment with no repeated key: segment j's entry maps `#FE_<s0>_..._<sj>` to segment j |
| ExpressionBuilder.BuildUpdateParts | packages/core/src/classes/expression/__test__/expression-builder.spec.ts:73-103 | from index `first` on, entry i yields clause i with index first + i and value-table entry i, `:val<first+i>` with the stored value, in insertion order |
| ExpressionBuilder.BuildUpdateExpression | packages/core/src/classes/expression/__test__/expression-builder.spec.ts:82-103 | the expression is `SET ` and the entries' clauses joined by `, `, entry k with index k; value-table entry k is `:val<k>` with entry k's stored value; both tables are present exactly when the mapping is non-empty; the names table is each entry's own positional entries, entry after entry, with no repeated key |
| ExpressionBuilder.BuildProjectionExpression | packages/core/src/classes/expression/__test__/expression-builder.spec.ts:165-183 | the expression is the paths rendered under `PE`, joined by `, `; there is no values table; the names table is present exactly when there are paths, never repeats a key, and holds only keys the paths contribute |
| ExpressionBuilder.ConditionNaming | packages/core/src/classes/expression/__test__/expression-builder.spec.ts:11-35 | under any scope, segment j maps the token of chain 0..j to segment j, no key repeats, and `attribute_not_exists(...)` holds the keys joined by dots |
| ExpressionBuilder.ConditionOneSegment | packages/core/src/classes/expression/__test__/expression-builder.spec.ts:11-22 | for any dot-free path p, the condition result is `attribute_not_exists(#CE_p)` with names `{#CE_p: p}` and no values table |
| ExpressionBuilder.FilterTwoSegments | packages/core/src/classes/expression/__test__/expression-builder.spec.ts:149-160 | for any `a.b`, the filter result is `attribute_not_exists(#FE_a.#FE_a_b)` with names `{#FE_a: a, #FE_a_b: b}` and no values table |
| ExpressionBuilder.ConcatCons | packages/core/src/classes/expression/__test__/expression-builder.spec.ts:85-95 | a table placed in front of the others comes first in their concatenation |
| ExpressionBuilder.EntryNamesCons | packages/core/src/classes/expression/__test__/expression-builder.spec.ts:85-95 | the tables of the entries are the first entry's table followed by those of the rest, renumbered from the next index |
| ExpressionBuilder.UpdateNamesInOrder | packages/core/src/classes/expression/__test__/expression-builder.spec.ts:85-95 | the update names table is each entry's own entries, one entry after another in insertion order |
| ExpressionBuilder.UpdateNamesDistinct | packages/core/src/classes/expression/__test__/expression-builder.spec.ts:85-95 | the update names table never repeats a key, and every key belongs to an entry at or after the first index |
| ExpressionBuilder.UpdateValuesDistinct | packages/core/src/classes/expression/__test__/expression-builder.spec.ts:96-102 | the update values table never repeats a key |
| ExpressionBuilder.EntryClauseShape | packages/core/src/classes/expression/__test__/expression-builder.spec.ts:73-84 | entry k's clause is `#attr<k> = :val<k>` for a dot-free path, and `#attr<k>_inner0. ... .#attr<k>_inner<n-1> = :val<k>` for a path of n segments |
| ExpressionBuilder.UpdateOneEntry | packages/core/src/classes/expression/__test__/expression-builder.spec.ts:56-71 | an update of one path of n segments has exactly n name entries (the path's positional entries), the value entry `:val0` and the expression `SET ` plus the entry's clause |
| ExpressionBuilder.UpdateOneSegment | packages/core/src/classes/expression/__test__/expression-builder.spec.ts:40-54 | for any dot-free key p and value v, the result is exactly `SET #attr0 = :val0` with names `{#attr0: p}` and values `{:val0: v}` (null for an absent v) |
| ExpressionBuilder.UpdateKeepsEveryEntry | packages/core/src/classes/expression/__test__/expression-builder.spec.ts:109-144 | every entry keeps its clause and its value under `:val<k>`, whatever the value: `undefined` as null, anything else, `''` included, unchanged |
| ExpressionBuilder.ConcatKeys | packages/core/src/classes/expression/__test__/expression-builder.spec.ts:176-180 | every key of a concatenation of tables comes from one of the tables |
| ExpressionBuilder.ProjectionNamesSeparate | packages/core/src/classes/expression/__test__/expression-builder.spec.ts:176-180 | when no two paths share a token, the projection names table is each path's entries, path after path |
| ExpressionBuilder.ProjectionNamesKeys | packages/core/src/classes/expression/__test__/expression-builder.spec.ts:176-180 | the projection names table never repeats a key, and its keys are exactly the keys its paths contribute |
| ExpressionBuilder.ProjectionTokensResolve | packages/core/src/classes/expression/__test__/expression-builder.spec.ts:175-181 | every token the projection expression renders, for every segment of every path, is a key of the result's names table, so no placeholder is left without a name |
| ExpressionBuilderCases.TwoSegmentPath | packages/core/src/classes/expression/__test__/expression-builder.spec.ts:56-66 | `a.b` with dot-free a and b parses to `[a, b]` |
| ExpressionBuilderCases.ThreeSegmentPath | packages/core/src/classes/expression/__test__/expression-builder.spec.ts:76-79 | `a.b.c` with dot-free segments parses to `[a, b, c]` |
| ExpressionBuilderCases.OneSegmentEntry | packages/core/src/classes/expression/__test__/expression-builder.spec.ts:75-78 | entry k with a dot-free path has clause `#attr<k> = :val<k>` and the single entry `#attr<k>` mapped to the whole path |
| ExpressionBuilderCases.TwoSegmentEntry | packages/core/src/classes/expression/__test__/expression-builder.spec.ts:56-71 | entry k with `a.b` has clause `#attr<k>_inner0.#attr<k>_inner1 = :val<k>` and those two tokens mapped to a and b |
| ExpressionBuilderCases.ThreeSegmentEntry | packages/core/src/classes/expression/__test__/expression-builder.spec.ts:84-94 | entry k with `a.b.c` has three `_inner` tokens joined by dots and mapped to a, b and c in order |
| ExpressionBuilderCases.UpdateTwoSegments | packages/core/src/classes/expression/__test__/expression-builder.spec.ts:56-71 | for any `a.b` and value v, the result is `SET #attr0_inner0.#attr0_inner1 = :val0` with names `{#attr0_inner0: a, #attr0_inner1: b}` and values `{:val0: v stored}` |
| ExpressionBuilderCases.ConditionPK | packages/core/src/classes/expression/__test__/expression-builder.spec.ts:11-35 | `attribute_not_exists('PK')` builds `attribute_not_exists(#CE_PK)` with names `{#CE_PK: PK}` and no values table, on every call |
| ExpressionBuilderCases.UpdateName | packages/core/src/classes/expression/__test__/expression-builder.spec.ts:40-54 | `{name: 'new name'}` builds `SET #attr0 = :val0`, `{#attr0: name}`, `{:val0: 'new name'}` |
| ExpressionBuilderCases.UpdateNestedName | packages/core/src/classes/expression/__test__/expression-builder.spec.ts:56-71 | `{'user.name': 'new name'}` builds `SET #attr0_inner0.#attr0_inner1 = :val0` with the two segment names and the value |
| ExpressionBuilderCases.UpdateUndefined | packages/core/src/classes/expression/__test__/expression-builder.spec.ts:109-124 | `{'user.name': undefined}` keeps its clause and stores `:val0` as null |
| ExpressionBuilderCases.UpdateEmptyString | packages/core/src/classes/expression/__test__/expression-builder.spec.ts:129-144 | `{'user.name': ''}` keeps its clause and stores `:val0` as the empty string |
| ExpressionBuilderCases.FiveEntryClauses | packages/core/src/classes/expression/__test__/expression-builder.spec.ts:83-84 | five entries with one, three, one, one and three segments give the five clauses of the complex case, entry k numbered k |
| ExpressionBuilderCases.FiveEntryExpression | packages/core/src/classes/expression/__test__/expression-builder.spec.ts:83-84 | the expression of that shape is `SET ` and its five clauses separated by `, ` |
| ExpressionBuilderCases.FiveEntryNames | packages/core/src/classes/expression/__test__/expression-builder.spec.ts:85-95 | the names table of that shape is the nine tokens, entry by entry, mapped to the segments in order |
| ExpressionBuilderCases.FiveEntryValues | packages/core/src/classes/expression/__test__/expression-builder.spec.ts:96-102 | any five-entry update stores entry k's value under `:val<k>`, in order |
| ExpressionBuilderCases.UpdateComplexNested | packages/core/src/classes/expression/__test__/expression-builder.spec.ts:73-104 | the complex nested mapping builds exactly the asserted expression, the nine name entries (`address[0]` and `object[1]` whole) and the five values, the array unchanged |
| ExpressionBuilderCases.FilterProfileDeleted | packages/core/src/classes/expression/__test__/expression-builder.spec.ts:149-160 | `attributeNotExists('profile.deleted')` builds `attribute_not_exists(#FE_profile.#FE_profile_deleted)` with the two names and no values table |
| ExpressionBuilderCases.ProjectionTokens | packages/core/src/classes/expression/__test__/expression-builder.spec.ts:177-179 | the `PE` token of `[a]` is `#PE_a` and that of `[a, b]` is `#PE_a_b` |
| ExpressionBuilderCases.ProjectionEntries | packages/core/src/classes/expression/__test__/expression-builder.spec.ts:176-181 | a one-segment path p and a two-segment path `a.b` contribute `[#PE_p: p]` and `[#PE_a: a, #PE_a_b: b]` and render their tokens in that order |
| ExpressionBuilderCases.ProjectionOneAndTwo | packages/core/src/classes/expression/__test__/expression-builder.spec.ts:165-183 | projecting p and `a.b` gives `#PE_p, #PE_a.#PE_a_b` and the three name entries in order, as long as p's token is not one of `a.b`'s |
| ExpressionBuilderCases.ProjectionNameUserStatus | packages/core/src/classes/expression/__test__/expression-builder.spec.ts:165-183 | `['name', 'user.status']` builds `#PE_name, #PE_user.#PE_user_status` with exactly three name entries and no values table |

## Left out

- The implementation files `expression-builder`, `condition`, `filter` and `projection` are not part of this model. The model reproduces what the test suite asserts about them.
- Building conditions, filters and projections (`attributeNotExist`, `attributeNotExists`, `addProjectionAttributes`) is not modelled: the model takes the finished `attribute_not_exists` leaf or the list of paths as input.
- Other condition operators (`AND`, `OR`, `NOT`, comparisons, `begins_with`, `between`, ...) and their rendering are left out; nothing asserts them.
- Unsupported operators are not modelled, and neither are parse errors for unbalanced brackets, an empty path or an empty segment. Every string parses: the empty path is one empty segment, and brackets are ordinary characters.
- Reuse of a placeholder by two projected paths that share a prefix is not asserted by any case. The model merges projection entries with JavaScript object assignment semantics, so a repeated token keeps its first position and takes the later segment. It does not claim this as the builder's behaviour.
- ExpressionBuilder.ProjectionNamesSeparate: proved only when no two paths share a token, the only situation the test suite exercises.
- The ancestry token of a segment containing `_` can equal the token of a chain of segments: `a_b` and `a.b` both name a segment `#PE_a_b`. The model keeps this; ProjectionOneAndTwo excludes it in its precondition.
- JavaScript object key order is not modelled: an update mapping is an ordered sequence of path and value pairs, in the order the keys were written.
- An empty update mapping is not asserted by any case. The model gives the expression `SET ` and omits both tables.
- An empty projection is not asserted by any case. The model gives the empty expression and omits the names table.
- Numbers are unbounded integers. Floating-point values are not modelled, because no case uses them.
- The DynamoDB SDK, request assembly and all I/O are left out, because none of them is part of the builder.
