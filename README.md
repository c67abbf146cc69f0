# buildsql, modelled in Dafny

buildsql turns the query string of an HTTP request into the tail of a SQL `WHERE`
clause, an `ORDER BY` clause and a map of named parameters. A client writes one
`filter=<alias>-<field>-<operator>-<value>` parameter per condition and one
`sortOn=[-]<alias>-<field>` parameter per sort key. The `QueryBuilder` reads them
(`ParseParamString`), keeps only the aliases and fields admitted by an allow-map of
table structs, and renders each filter as a fragment such as
`u.id = :filter_u_id_0`, binding its value under that name (`Build`). Fragments on the
same `alias.field` form an OR group, and lone `or`/`orlike` fragments trail in an OR
group of their own, glued to the AND list (`AssembledWheres`). The model keeps this
assembly as written and, beside it, the assembly the tests expect
(`AssembledWheresIntended`); see Findings. The free function `BuildOrderBy` checks a
comma-separated sort list against a map of allowed fields. The `FilterBuilder` is the
client-side counterpart: it collects filters and sorts and renders the `filter=` and
`sortOn=` parameters of a query string. The `Operator` type is the closed set of filter
tokens, each with its SQL keyword.

The project has seven modules:

- `GoStrings` (gostrings.dfy): the parts of Go's `strings` package that the code uses
  (`Split`, `SplitN`, `Join`, `TrimSpace`, `ToLower`, `Index`), with the lemmas about
  them that the proofs need.
- `Operators` (operator.dfy): operator.go.
- `Tokens` (tokens.dfy): the meaning of one `filter` or `sortOn` value, and reading a
  list of them up to the first malformed one.
- `Assembly` (assembly.dfy): what `Build` and `AssembledWheres` compute, as functions
  of the parsed filters, the parsed sorts and the allow-map.
- `Builder` (builder.dfy): the `QueryBuilder` class. Its methods keep the loops of the
  Go code and are proved against the `Tokens` and `Assembly` functions.
- `OrderBy` (orderby.dfy): `BuildOrderBy`.
- `FilterBuilding` (filterbuilder.dfy): the `FilterBuilder` class, with the round trip
  from what it writes back to what the `QueryBuilder` reads.

## Model

| member | source | states |
|---|---|---|
| Operators.Operator.Convert | operator.go:26-64 | the keyword is empty exactly for `or` and for a token outside the eighteen constants |
| Operators.Operator.IsLike | operator.go:66-68 | true exactly for the operators whose keyword is LIKE, ILIKE, NOT LIKE or NOT ILIKE |
| Operators.Operator.IsBetween | operator.go:70-72 | true exactly for the operator whose keyword is BETWEEN |
| Operators.Operator.IsIn | operator.go:74-76 | true exactly for the operator whose keyword is IN |
| Operators.Operator.IsNotIn | operator.go:78-80 | true exactly for the operator whose keyword is NOT IN |
| Operators.Operator.IsNull | operator.go:82-84 | true exactly for the operators whose keyword is IS NULL or IS NOT NULL |
| Operators.Operator.String | operator.go:87-89 | the token of a named operator is non-empty and holds no hyphen, so it fits in one filter segment |
| Operators.FromToken | operator.go:3-24 | the conversion `Operator(s)` keeps the token as its string and gives a named operator exactly for the eighteen constant tokens |
| Operators.StringRoundTrip | operator.go:87-89 | reading back the `String()` of a well-formed operator gives the same operator |
| Operators.TokensDistinct | operator.go:5-24 | no two constants share a token |
| Operators.ConvertComparisons | operator_test.go:10-48 | eq, neq, lt, lte, gt and gte convert to =, !=, <, <=, > and >= |
| Operators.ConvertPatterns | operator.go:32-43 | like and orlike convert to LIKE, ilike and orilike to ILIKE, nlike to NOT LIKE, nilike to NOT ILIKE |
| Operators.ConvertShapes | operator.go:52-62 | btw, in, notin, isnull and isnotnull convert to BETWEEN, IN, NOT IN, IS NULL and IS NOT NULL; or converts to "" |
| Operators.ConvertUnknown | operator.go:63 | a token outside the constants converts to "" |
| Operators.OrLikeRendersAsLike | operator.go:36-39 | the "or" pattern operators render exactly as the plain ones |
| Operators.ShapesExclusive | operator.go:66-84 | the predicates are mutually exclusive: an operator has at most one fragment shape |
| Operators.LikeRendersLike | operator.go:66-68 | every pattern operator's keyword contains LIKE |
| Tokens.ParseFilter | builder.go:144-193 | a filter read has hyphen-free alias and field, and carries a value list only for btw, in and notin |
| Tokens.ParseSort | builder.go:199-222 | a sort read has hyphen-free alias and field |
| Tokens.ParseAll | builder.go:144-193 | the items read never outnumber the tokens; with no failure every token was read, with a failure fewer were |
| Tokens.ParseAllReads | builder.go:144-193 | item k is the reading of token k, and a failure is the error of the first token not read |
| Tokens.ParseAllStops | builder.go:148-150 | once a prefix has failed, the tokens after it change nothing |
| Tokens.FilterRejection | builder.go:146-181 | a filter is rejected exactly when it has fewer than three hyphen segments, or exactly three and the third is not isnull or isnotnull |
| Tokens.FilterSegments | builder.go:146-163 | with four segments, the first three hold no hyphen and the value is the whole remainder, hyphens kept |
| Tokens.FilterReading | builder.go:146-191 | for hyphen-free alias, field and operator token and any value, with no white space at the ends, `<alias>-<field>-<op>-<value>` reads as that alias and field, the operator of that token, the value (wrapped in `%` for the pattern operators) and, for btw, in and notin, the value split on commas |
| Tokens.ValueListShape | builder.go:165-168 | the value list is non-empty exactly for btw, in and notin, and then it rejoins to the raw value |
| Tokens.SortSegments | builder.go:199-221 | a sort is DESC exactly when the trimmed value starts with `-`; it is rejected exactly when the rest has no hyphen; otherwise alias and field are its first two hyphen-free segments |
| Tokens.SortGuardAsWritten | builder.go:210-217 | for a trimmed sort value without a hyphen, the guard as written does not fire and the split has one piece, so the field segment is missing |
| Assembly.SelectMembers | builder.go:245-253 | a bucket of the maps by field name holds exactly the items with that name |
| Assembly.FilterFragment | builder.go:268-320 | there is no fragment exactly for a btw filter without two values; a fragment is filed under `<alias>.<field>` |
| Assembly.FragmentShape | builder.go:268-320 | a fragment starts with `<alias>.<field> <keyword>`; btw, in and notin bind the filter's values in order, value j under `filter_<alias>_<field>_<i>_<j>`; isnull and isnotnull bind nothing; every other operator binds the filter's value under `filter_<alias>_<field>_<i>`; each bound key appears in the SQL as `:key` |
| Assembly.GroupFragmentsSource | builder.go:263-323 | each fragment of a bucket comes from one of its filters with the alias, numbered by its position in the bucket |
| Assembly.GroupFragmentsComplete | builder.go:263-323 | each filter of a bucket with the alias yields its fragment |
| Assembly.SortEntriesMember | builder.go:325-332 | a bucket's ORDER BY entries are exactly those of its sorts with the alias |
| Assembly.EmitAllMember | builder.go:255-261 | the allow-map loop visits exactly the non-empty tags of every alias |
| Assembly.FragmentsAllowed | builder.go:255-323 | every fragment comes from a parsed filter whose alias is an allow-map key and whose field is one of that alias's tags |
| Assembly.FilterEmitted | builder.go:255-323 | every parsed filter the allow-map admits yields a fragment, unless it is a btw filter without exactly two values |
| Assembly.SortsAllowed | builder.go:325-332 | the ORDER BY entries are exactly those of the parsed sorts the allow-map admits |
| Assembly.AddWheresGrouped | builder.go:280-319 | the `wheres` map built by appending each fragment under its name buckets the fragments by name, in order, with distinct names |
| Assembly.BindAllResult | builder.go:275-311 | the parameter map holds exactly the keys bound, each with the value of its last binding |
| Assembly.ItemsPartition | builder.go:348-364 | each bucket goes to exactly one of the `where` and `orWhere` slices |
| Assembly.AssembledAsWritten | builder.go:345-374 | the tail as written is "" or starts with " AND " |
| Assembly.Assembled | builder_test.go:117-123 | the intended tail is "" or starts with " AND " |
| Assembly.AsWrittenContains | builder.go:348-368 | every bucket's fragment SQL appears in the tail as written, in its bucket's AND item or in the glued OR group |
| Assembly.AssembledContains | builder.go:345-374 | every bucket's fragment SQL appears in the tail, both as written and as intended |
| Assembly.AssembledEmpty | builder.go:366-373 | when every fragment has SQL text, both tails are "" exactly when there is no bucket, and otherwise start with " AND " |
| Assembly.WhereGroups | builder.go:238 | the `wheres` map Build hands on buckets exactly the fragments it recorded |
| Assembly.VisitsNonEmpty | builder.go:345-348 | in any order a `range` over Build's `wheres` map may take, every bucket is non-empty |
| Assembly.WhereContainsFragments | builder.go:336 | in any order the `wheres` map is visited, every fragment Build records appears in the WHERE tail, both as written and as intended |
| Assembly.WhereEmpty | builder.go:336 | in any order the `wheres` map is visited, the WHERE tail is "" exactly when Build records no fragment, both as written and as intended |
| Assembly.OrRoutingAsWritten | builder.go:358-368 | on the buckets of builder_test.go:110, the tail as written is `" AND " + id + " AND " + last + "(" + first + ")"` |
| Assembly.OrRoutingIntended | builder_test.go:116-123 | on the same buckets, the intended tail is `" AND " + id + " AND (" + first + " OR " + last + ")"` |
| Assembly.OrRoutingDiffers | builder_test.go:122-124 | the two assemblies never agree on those buckets |
| Builder.QueryBuilder.constructor | builder.go:82-84 | a new builder has no filters, no sorts and no search tables |
| Builder.QueryBuilder.ParseParamString | builder.go:109-228 | the filters read before the first malformed one are appended; sorts are read only when every filter was; the search tables are the aliases read; the error is the first malformed value's |
| Builder.QueryBuilder.ParseFilters | builder.go:142-194 | the `filter` loop appends the readings before the first failure and returns that failure |
| Builder.QueryBuilder.ReadFilter | builder.go:144-192 | one round of the `filter` loop: a token read is appended and its alias marked, a token that fails ends the reading with its error and changes nothing |
| Builder.QueryBuilder.RecordFilter | builder.go:191-192 | a filter read is appended and its alias marked as searched |
| Builder.QueryBuilder.ReadSort | builder.go:199-221 | one round of the `sortOn` loop: a token read is appended and its alias marked, a token that fails ends the reading with its error and changes nothing |
| Builder.QueryBuilder.RecordSort | builder.go:219-221 | a sort read is appended and its alias marked as searched |
| Builder.QueryBuilder.ParseSorts | builder.go:197-223 | the `sortOn` loop appends the readings before the first failure and returns that failure |
| Builder.QueryBuilder.Build | builder.go:236-343 | on a parse error: that error and empty results; otherwise the as-written WHERE tail of the `wheres` map of the admitted filters' fragments, the ORDER BY of the admitted sorts and the bound parameters, over all filters and sorts the builder holds |
| Builder.QueryBuilder.AssembledWheres | builder.go:345-374 | the loop and the glue as written compute the as-written assembly |
| Builder.QueryBuilder.AssembledWheresIntended | builder.go:345-374 | the corrected loop computes the intended assembly, with orilike routed and the OR group joined by " AND " |
| Builder.Emit | builder.go:245-340 | the loops after the parse compute the grouped fragments, the ORDER BY clause and the parameters of the allow-map walk |
| Builder.SplitGroups | builder.go:348-364 | the loop over the buckets computes the `where` and `orWhere` slices |
| Builder.GroupBy | builder.go:245-253 | each name's bucket is its items, in order |
| Builder.EmitAlias | builder.go:256-333 | the loop over one alias's tags records the fragments, binds the parameters and collects the ORDER BY entries of those tags, in order |
| Builder.EmitAliasRound | builder.go:257-333 | one round of that loop adds what one more tag contributes |
| Builder.EmitTag | builder.go:258-332 | one tag contributes the fragments of its filter bucket and the entries of its sort bucket; an empty tag contributes nothing |
| Builder.EmitFilterGroup | builder.go:265-322 | the loop over one bucket records its fragments and binds their parameters, in order |
| Builder.EmitSortGroup | builder.go:327-331 | the loop over one bucket of sorts gives its ORDER BY entries |
| Builder.Bind | builder.go:275-311 | writing the bindings one after the other |
| Builder.RenderFilter | builder.go:268-320 | the switch on the operator gives the filter's fragment |
| Builder.RenderValues | builder.go:288-293 | one placeholder and one parameter per value, in order |
| OrderBy.OrderByField | builder.go:397-409 | one field is accepted exactly when its name, trimmed of white space and of a leading `-`, is a key of the map; otherwise the error names it |
| OrderBy.OrderByOf | builder.go:376-421 | the only error is a field name missing from the map, and a non-empty clause starts with `ORDER BY ` |
| OrderBy.BuildOrderBy | builder.go:376-421 | "" for an empty list; otherwise the clause of the fields' entries, or the error of the first field not allowed with an empty clause |
| OrderBy.OrderByAllowed | builder.go:386-409 | a non-empty list is accepted exactly when every field name is in the map |
| OrderBy.OrderByEntries | builder.go:386-418 | an accepted list gives `ORDER BY` and one `<table>.<field> ASC/DESC` entry per field, in order, DESC exactly for a leading `-` |
| OrderBy.OrderByRejected | builder.go:397-408 | a rejected list names the first field not in the map, all earlier ones being in it |
| OrderBy.OrderByIgnoresCase | builder.go:382 | the case of the list makes no difference |
| FilterBuilding.FilterBuilder.constructor | filterbuilder.go:16-22 | a new builder has no prefixes, filters or sorts |
| FilterBuilding.FilterBuilder.AddFilter | filterbuilder.go:25-32 | a valid key gets the value, overwriting an earlier one, and its prefix is recorded; an invalid key changes nothing; sorts are untouched; the receiver is returned |
| FilterBuilding.FilterBuilder.AddSort | filterbuilder.go:35-47 | exactly one entry is appended, with a leading `-` exactly when the first direction given is DESC; nothing else changes |
| FilterBuilding.FilterBuilder.IsValidFilter | filterbuilder.go:50-58 | true exactly when the key splits on hyphens into three non-empty pieces |
| FilterBuilding.FilterBuilder.String | filterbuilder.go:61-81 | the filter parameters in map order, then the sort parameters in insertion order, joined by `&` |
| FilterBuilding.Query | filterbuilder.go:61-81 | the query string is empty exactly when there is no filter key and no sort entry to write |
| FilterBuilding.ValidFilterKey | filterbuilder.go:26-27 | a key is accepted exactly when prefix, field and operator token are non-empty and hyphen-free |
| FilterBuilding.EmptyOperatorRejected | filterbuilder_test.go:49-55 | a filter with the empty operator is never stored |
| FilterBuilding.QueryEmpty | filterbuilder_test.go:43-47 | the query string is empty exactly when there are no filters and no sorts |
| FilterBuilding.QueryHoldsEntries | filterbuilder_test.go:11-31 | the query string holds `filter=<key>-<value>` for every key and `sortOn=<entry>` for every sort |
| FilterBuilding.FilterRoundTrip | filterbuilder.go:26 | a stored filter written out as `<key>-<value>` reads back in the QueryBuilder as the same alias, field, operator and value |
| FilterBuilding.SortRoundTrip | filterbuilder.go:40-44 | a sort entry reads back in the QueryBuilder as the same alias and field, DESC exactly when DESC was asked for |

## Left out

- URL handling in `ParseParamString` (builder.go:110-136): the path split, the `?`
  prefix and `url.Parse` are not modelled. The methods start from the decoded lists of
  `filter` and `sortOn` values, and a URL parse error is not an error case of the model.
- Reflection (builder.go:256-261): each struct of the allow-map is given as the list of
  its fields' `db` tags, in field order. An empty tag is skipped, as in the code.
- Go map iteration order. The allow-map is a sequence, and `Build`'s results are
  proved for that sequence's order. `Build` visits the buckets of its `wheres` map in the
  order their names were first recorded, which is one of the orders Go may take. That
  every fragment appears in the WHERE tail, and that the tail is empty exactly when
  nothing was recorded, is proved for every order (`Assembly.WhereContainsFragments`,
  `Assembly.WhereEmpty`). The exact text of the tail is stated for the first-recorded
  order only. The map in `BuildOrderBy` is only looked up. `FilterBuilder.String` takes
  the order of its `range` over the map as a parameter, and its results hold for every
  order.
- `strings.TrimSpace` removes the ASCII white space and the Unicode spaces listed in
  `GoStrings.Spaces`. `strings.ToLower` lower-cases ASCII letters only.
- `Value` (an `interface{}`) and the values of the parameter map are strings. Error
  messages are not modelled, only which kind of error occurs and the piece that caused it.
- The index panic at builder.go:217 for a sort value with no second segment is the
  error `MissingSortField` (see Findings).
- The search through the map in `BuildOrderBy` (builder.go:398-404) is a key lookup.
  The `len(sb) == 0` exit at builder.go:411 is left out: a non-empty list always has at
  least one field, so that exit is never taken with an empty `sb` and no error.
- The `AllowedFilterFields` and `AllowedSortFields` fields of `QueryBuilder` are never
  read by the core and are not modelled.
- Builder.QueryBuilder.Build: that the parameter keys it binds are distinct is not
  proved. `Assembly.BindAllResult` states the value of each key's last binding.
- `SortDirection` has the two values ASC and DESC. A Go caller could pass any other
  string, which `AddSort` treats as ASC.
- FilterBuilding.FilterRoundTrip and FilterBuilding.SortRoundTrip require hyphen-free
  pieces, a non-empty prefix and no white space at the ends. These conditions are
  sufficient, not necessary: some other inputs also read back, such as a DESC sort with
  an empty prefix. Without them the round trip fails for some inputs: an ASC sort with
  an empty prefix, a hyphen inside a piece, or white space at the outer ends.
- FilterBuilding.FilterBuilder.String drops exactly one trailing `&`, as the code does,
  so its result is always the entries joined by `&`. A value that itself ends in `&`
  leaves a trailing `&`.
- The `prefixes` field of `FilterBuilder` is recorded but never read by the code, and
  no property of it is stated beyond what `AddFilter` appends.

## Findings

| source | as written | input that shows it | evidently intended | confidence | as-written member | corrected member |
|---|---|---|---|---|---|---|
| builder.go:358 | only lone `or` and `orlike` fragments go to the OR group; `orilike` stays in the AND list | `filter=u-first_name-orlike-John&filter=u-last_name-orilike-Doe&filter=u-id-eq-123` (builder_test.go:110) | `orilike` joins the OR group, as builder_test.go:117 expects | not executed | Assembly.OrRoutingAsWritten | Assembly.OrRoutingIntended |
| builder.go:368 | the OR group is appended to the AND list with no separator, giving `<and list>(<or group>)` | the same input | the OR group is one more AND item, as builder_test.go:123 expects | not executed | Builder.QueryBuilder.AssembledWheres | Builder.QueryBuilder.AssembledWheresIntended |
| builder.go:211 | the guard `len(parts) < 1` never fires, so `parts[1]` at builder.go:217 is read from a one-piece split | `sortOn=id` | the guard is `len(parts) < 2` and the value is rejected with an error | not executed | Tokens.SortGuardAsWritten | Tokens.SortSegments |
