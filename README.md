# Blog analytics: filter language, date windows and aggregations

This project is a Dafny model of the analytics core of a Django blog service. The core is
`AnalyticsQueryBuilder` and `AnalyticsCalculator` in `analytics/utils.py`, plus the three views
in `analytics/views.py`. The model proves properties of that core.

The database tables become sequences of records: `Blog`, `BlogView` and `User` datatypes with
the field shapes of `analytics/models.py`.

- **Filter language.** A filter is a JSON list of `{field, operator, value}` clauses. It
  compiles to a `Q` tree with Django's identity rule: the empty `Q()` vanishes from `&` and
  `|`. `Q` filters rows through a schema, which is a whitelist of field paths plus accessors.
  An unknown path, a non-exact lookup against `None`, an unhashable operator, and
  `end_date + 1 day` beyond 9999-12-31 are the errors the store or Python raise. They are
  modelled as `QueryError` values, which the views answer with a server error.
- **Date window.** `>= start` and `< end + 1 day` are applied to timestamps (a date plus a
  second of the day). The model proves this equals the inclusive window on dates.
- **Dates.** `strptime("%Y-%m-%d")` is modelled as CPython's regular expressions for `%Y`,
  `%m` and `%d` accept them, followed by calendar validation. `strftime` is zero-padded.
  `TruncDay`, `TruncWeek`, `TruncMonth` and `TruncYear` are civil-date truncations; the week
  starts on Monday, proved with Sakamoto's weekday formula.
- **GROUP BY.** A grouped query is a `GroupBy` over annotated rows. Groups appear in order of
  first occurrence and carry `Count("id")` and the set behind `Count(column, distinct=True)`.
  `order_by` is a stable insertion sort under a total preorder. `[:10]` is a prefix.
- **The three endpoints.** Each is a method that validates the request and runs the queries.
  Each method is proved equal to a response function, and the rows of every response are
  characterised by lemmas.
- **Performance loop.** The `prev_views` loop of the performance endpoint is an imperative
  method. Its invariant ties every row to its periods and to the row before it.

Two behaviours of the code shape every endpoint, and the model keeps both.

- All three views call `get_queryset_with_filters` on `BlogView` with its default date field
  `created_at` (analytics/views.py:24, :47, :85, :148). `BlogView` has no `created_at`
  field, so any start or end date makes the view query raise `FieldError`: a server error.
  `Views.DatedViewQueryFails`, `Views.DatedSeriesFails` and `Views.DatedPerformanceFails`
  state the consequence.
- The date-window lemmas (`QueryBuilder.EndDayInclusive`, `QueryBuilder.DateWindowKeeps`)
  hold for any date field the schema has, such as `created_at` on `Blog`.
- Malformed filter text is dropped (it parses to no clauses). Malformed clauses are not
  always dropped:
  - a list or dict operator raises `TypeError` in `OPERATORS.get`;
  - a field path that does not resolve makes the store raise `FieldError`;
  - a `None` value with a lookup other than exact makes the store raise `ValueError`.

  All three are server errors.

`urllib.parse.unquote` and `json.loads` are parameters of the model (`QueryBuilder.Decoders`):
the model covers the control flow around them, not their behaviour.

Files, one module each: `wrappers.dfy` (Option, Result), `text.dfy` (lower-casing,
substrings, code-point order, decimal text), `json_values.dfy` (decoded JSON), `calendar.dfy`
(dates, truncation, parsing and formatting), `models.dfy` (records), `store.dfy` (schemas,
field access, `Select`), `query_builder.dfy` (the filter language, the date window,
`get_queryset_with_filters`), `calculator.dfy` (growth), `aggregation.dfy` (grouping, sorting,
top-N), `views.dfy` (the three endpoints).

## Model

| member | source | states |
|---|---|---|
| QueryBuilder.ParseFiltersString | analytics/utils.py:23-50 | falsy input gives no clauses; a list is returned as it is; other non-text gives none; non-empty text whose unquoted, unescaped decoding is a list gives that list's items; if that decoding fails, a list from decoding the raw text gives its items; any other decoding outcome gives none |
| QueryBuilder.MalformedFiltersAreEmpty | analytics/utils.py:23-50 | input that is not a list, and text whose first decoding is no list and whose fallback decoding (when the first fails) is no list, yields no clauses and compiles to nothing |
| QueryBuilder.CompileClause | analytics/utils.py:61-82 | a clause is skipped exactly when it is not a dict or its `field` is falsy; a compiled clause is one lookup or the negation of one |
| QueryBuilder.CompileAll | analytics/utils.py:60-82 | the kept clauses are never the empty `Q()` and are no more than the items |
| QueryBuilder.CompileAllCorrect | analytics/utils.py:60-82 | the loop fails exactly when some item raises, with the first raising item's error; otherwise it yields `KeptClauses`, each item's compiled clause in item order |
| QueryBuilder.UnescapeQuotes | analytics/utils.py:39 | the result is never longer than the text, and text without a backslash is unchanged |
| QueryBuilder.UnescapeQuotesExamples | analytics/utils.py:39 | `replace('\\"', '"')` turns each backslash-quote pair into a quote, left to right, and keeps a lone backslash |
| QueryBuilder.CompileAllErrPersists | analytics/utils.py:61-82 | once a clause raises, the whole compilation raises that same error |
| QueryBuilder.SkippedClausesCompileToNothing | analytics/utils.py:61-85 | a list of non-dicts and clauses without a field compiles to no clause |
| QueryBuilder.NoClauseKeepsEverything | analytics/utils.py:57-85 | with no kept clause the query only applies the date window |
| QueryBuilder.MissingOperatorIsEq | analytics/utils.py:66 | a clause without `operator` compiles as `eq` |
| QueryBuilder.UnknownOperatorIsEq | analytics/utils.py:79 | an operator that is hashable and outside the table compiles as `eq` (exact) |
| QueryBuilder.UnhashableOperatorRaises | analytics/utils.py:79 | a list or dict operator raises instead of defaulting |
| QueryBuilder.TableOperators | analytics/utils.py:11-20 | every table operator other than `ne` compiles to its own lookup on the clause's field and value |
| QueryBuilder.NeNegatesEq | analytics/utils.py:73-74 | `ne` accepts exactly the rows `eq` rejects, and raises exactly when `eq` does |
| QueryBuilder.Holds | analytics/utils.py:11-20 | a lookup other than exact never holds of a NULL field or a `None` value, and holds only between two numbers or two texts; `contains` and `icontains` only between texts |
| QueryBuilder.ComparisonsPartition | analytics/utils.py:14-17 | on comparable values exactly one of `lt`, exact, `gt` holds; `gte` and `lte` are their unions |
| QueryBuilder.ContainsImpliesIContains | analytics/utils.py:75-77 | a case-sensitive substring match is also a case-insensitive one, which ignores the case of the field |
| QueryBuilder.Conj | analytics/utils.py:93-95 | `a & b` accepts a row iff both do, `Q()` vanishes, and the first unresolvable leaf is reported |
| QueryBuilder.Disj | analytics/utils.py:89-91 | `Q() \| b` is `b`; with two non-empty sides a row is accepted iff either side accepts it; the first unresolvable leaf is reported |
| QueryBuilder.FoldOr | analytics/utils.py:89-91 | the `\|=` loop accepts a row iff some clause does and raises the first clause's resolution error |
| QueryBuilder.FoldAnd | analytics/utils.py:93-95 | the `&=` loop accepts a row iff every clause does and raises the first clause's resolution error |
| QueryBuilder.BuildFilters | analytics/utils.py:53-97 | the two loops give an error exactly when a clause raises, and otherwise the combination of the kept clauses under the logic token |
| QueryBuilder.AndWithinOr | analytics/utils.py:88-95 | a row the AND combination accepts is accepted by the OR combination |
| QueryBuilder.AndRowsWithinOrRows | analytics/utils.py:88-95 | over the same clauses and rows the AND result is a sub-multiset of the OR result |
| QueryBuilder.TruncFor | analytics/utils.py:111-119 | the lower-cased token picks day, week or year, and anything else gives month |
| QueryBuilder.ApplyDateRange | analytics/utils.py:100-108 | the two reassignments keep the rows in the inclusive window, or give the missing-field or overflow error |
| QueryBuilder.DateWindowKeeps | analytics/utils.py:100-108 | a window keeps exactly the rows dated inside it; the result is a sub-multiset; no bounds keep everything |
| QueryBuilder.EndDayInclusive | analytics/utils.py:104-107 | a row on the end date is kept and one on the following day is dropped |
| QueryBuilder.MissingDateFieldFails | analytics/utils.py:102-107 | a bound on a field the model lacks makes the query fail |
| QueryBuilder.FilterRows | analytics/views.py:26 | the store raises for the first unresolvable leaf and succeeds when every leaf resolves; it then keeps each accepted row as often as it occurs and no rejected row |
| Store.Select | analytics/views.py:26 | `.filter` keeps exactly the accepted rows, as a sub-multiset of the table |
| Store.SelectCounts | analytics/views.py:26 | `.filter` keeps each accepted row as often as it occurs and no rejected row |
| QueryBuilder.GetQuerysetWithFilters | analytics/views.py:24-27 | building, filtering and date-bounding give the rows of `QueryRows` or its error |
| QueryBuilder.QueryRowsSubset | analytics/views.py:24-27 | a successful query returns a sub-multiset of the table |
| Calculator.Growth | analytics/utils.py:125-129 | a zero baseline gives 100 for positive current and 0 otherwise; otherwise growth times previous is 100 times the change |
| Calculator.GrowthSign | analytics/utils.py:129 | for a positive baseline the growth is positive, zero or negative as current is above, equal to or below previous |
| Calculator.GrowthAtLeastMinusHundred | analytics/utils.py:127-129 | with non-negative counts the growth is never below -100 |
| Calculator.GrowthScaleFree | analytics/utils.py:129 | doubling is 100 and no change is 0 for any non-zero baseline |
| Calculator.GrowthExamples | analytics/utils.py:125-129 | growth(0,0)=0, growth(5,0)=100, growth(150,100)=50, growth(50,100)=-50, growth(-3,0)=0 |
| Text.Lower | analytics/utils.py:88 | letter-by-letter lowering that maps A-Z and the Kelvin sign and keeps every other character; this is enough to compare with the ASCII tokens |
| Text.LowerIdempotent | analytics/utils.py:119 | lowering twice is lowering once |
| Text.SubstringLower | analytics/utils.py:76-77 | a substring stays a substring after both sides are lowered |
| Text.ParseInt | analytics/views.py:141 | `int(user_id)` on an optional sign and ASCII digits: it succeeds exactly when the text after one optional sign is a non-empty run of digits, and then gives their decimal value, negated under `-`; empty text, a bare sign and any other character fail |
| Text.ParseIntExamples | analytics/views.py:141 | `5a`, `-`, `+`, `1-2`, `--1` and `a5` raise; `-42`, `+7` and `007` read as -42, 7 and 7 |
| Text.ParseIntOfIntToString | analytics/views.py:141 | every integer's decimal text reads back as that integer |
| Calendar.AddOneDay | analytics/utils.py:106 | `+ timedelta(days=1)` overflows only at 9999-12-31; otherwise a date comes before the result iff it is on or before the end date |
| Calendar.NextDayIsSuccessor | analytics/utils.py:106-107 | no date lies strictly between a date and the next day |
| Calendar.Truncate | analytics/utils.py:113-117 | the bucket start is on or before the date and in range; day keeps it, month and year give their first day; week gives the latest Monday on or before the date, `Weekday(d)` days before it |
| Calendar.WeekStartLatest | analytics/utils.py:114 | no Monday lies after the week start and on or before the date |
| Calendar.WeekStartForward | analytics/utils.py:114 | stepping `Weekday(d)` days (fewer than seven) forward from the week start reaches the date |
| Calendar.WeekdayNext | analytics/utils.py:114 | the day after a date falls on the next weekday |
| Calendar.WeekStartIsMonday | analytics/utils.py:114 | the start of a week is a Monday |
| Calendar.TruncateIdempotent | analytics/utils.py:113-117 | truncating a bucket start leaves it unchanged |
| Calendar.ParseIsoDate | analytics/views.py:19 | a parsed date is a valid date between years 1 and 9999 |
| Calendar.IsoDate | analytics/views.py:163 | `strftime("%Y-%m-%d")`: ten characters with dashes at positions 4 and 7, read back by `ParseIsoDateOfIsoDate` |
| Calendar.ParseIsoDateOfIsoDate | analytics/views.py:19 | parsing the `%Y-%m-%d` rendering of a date gives the date back |
| Calendar.ParseIsoDateExamples | analytics/views.py:19 | padded and unpadded months and days are accepted |
| Calendar.ParseIsoDateRefusals | analytics/views.py:19-21 | dates that do not exist, year 0, trailing text and non-dates are refused |
| Views.ParseDate | analytics/views.py:15-21 | empty or missing gives no date, unparseable text gives the invalid marker, and otherwise the parsed in-range date |
| Views.ParseDateOfIsoDate | analytics/views.py:15-21 | every rendered date parses back to itself |
| Views.ParseDateExamples | analytics/views.py:15-21 | absent, empty, impossible and unpadded inputs take their three outcomes |
| Views.DatedViewQueryFails | analytics/views.py:47 | any date bound makes the view query fail, because views have no `created_at` |
| Aggregation.GroupByCorrect | analytics/views.py:54-55 | one group per key present; each has its key's row count (at least 1) and distinct non-null tags of at most that count; the counts sum to the rows |
| Aggregation.SortedAggregate | analytics/views.py:56 | ordering the groups keeps them a grouping of the same rows, and sorted |
| Aggregation.SortSorted | analytics/views.py:56 | the stable sort is sorted under a total preorder |
| Aggregation.TopByCount | analytics/views.py:94 | `[:n]` after the descending sort keeps `min(n, groups)` groups |
| Aggregation.TopByCountCorrect | analytics/views.py:94 | `order_by("-total_views")[:n]` keeps groups of the input, counts non-increasing, and no omitted group outranks a kept one |
| Aggregation.CountMapCounts | analytics/views.py:152-161 | `{period: count}.get(p, 0)` is the number of rows of period `p`, 0 when absent |
| Views.SeriesGroupsCorrect | analytics/views.py:52-57 | the series aggregate is a grouping of the annotated views, strictly ordered by (period, key), each group with at least one blog |
| Views.SeriesTable | analytics/views.py:59-66 | one row per group of the ordered aggregate, `z` its view count; `SeriesTableCorrect` gives the rest |
| Views.SeriesTableCorrect | analytics/views.py:59-66 | one row per group, labelled "<key or Unknown> - <period>", `z` its views, `y` its distinct blogs, 1 <= y <= z |
| Views.SeriesTotalViews | analytics/views.py:55-66 | the `z` column sums to the number of filtered views |
| Views.OrUnknown | analytics/views.py:61 | a missing or empty key renders as `Unknown`, and any other key renders as itself |
| Views.BlogViewsAnalytics | analytics/views.py:32-68 | the handler answers `SeriesResponse` |
| Views.SeriesValidatesFirst | analytics/views.py:40-45 | `object_type`, then `range`, then the dates are checked, and a 400 does not depend on the tables |
| Views.DatedSeriesFails | analytics/views.py:35-47 | a request that gets rows had no date bound |
| Views.GranularityOfValidToken | analytics/views.py:42-49 | each accepted `range` token selects its own truncation |
| Views.BlogLabel | analytics/views.py:96 | an empty title renders as `Blog <id>` |
| Views.UserLabel | analytics/views.py:108 | a missing or empty username renders as `Anonymous` |
| Views.TopTable | analytics/views.py:89-119 | the mode's rows: at most ten, ranked 1..n in order; `TopOfRanking` and `TopOfCounts` give their counts |
| Views.TopOfRanking | analytics/views.py:94-119 | at most 10 rows, ranks 1..n in order, `y` non-increasing, no omitted group above a shown row |
| Views.TopOfCounts | analytics/views.py:93-115 | each row's `y` is its key's view count and `z <= y`; the keys are distinct |
| Views.UserModeDropsAnonymous | analytics/views.py:101-105 | user mode counts exactly the views with a viewer, under a non-null username |
| Views.CountryModeKeepsEmpty | analytics/views.py:113-118 | country mode counts exactly the views with a country; an empty country is a group and renders as `Unknown` |
| Views.TopAnalytics | analytics/views.py:73-121 | the handler answers `TopResponse` |
| Views.TopValidatesFirst | analytics/views.py:80-83 | `top`, then the dates are checked, and a 400 does not depend on the tables |
| Views.AuthorFilter | analytics/views.py:140-141 | no or empty `user_id` keeps the blogs, a non-integer raises, and otherwise exactly the author's blogs are kept |
| Views.BlogIds | analytics/views.py:146 | the id set holds exactly the ids of the blogs |
| Views.ViewsOfBlogs | analytics/views.py:149 | exactly the views of the selected blogs are kept |
| Views.SortedUnion | analytics/views.py:155 | `sorted(set(a) \| set(b))` is strictly increasing and holds exactly the periods of either side |
| Views.SortedUnionCommutes | analytics/views.py:155 | the union does not depend on the order of its sides |
| Views.IncreasingUnique | analytics/views.py:155 | a strictly increasing sequence is determined by its elements |
| Views.PerfRowAt | analytics/views.py:159-165 | a row's period text, its "<period> - <n> blogs" label, its views, and growth against the period before it (none for the first) |
| Views.PerformanceRows | analytics/views.py:156-166 | the `prev_views` loop produces, for every period, the row `PerfRowAt` describes |
| Views.PerfPeriods | analytics/views.py:145-155 | the performance periods are strictly increasing valid dates |
| Views.PerfPeriodsExact | analytics/views.py:145-155 | a period appears iff a selected blog was created or a counted view happened in it |
| Views.PerformanceTable | analytics/views.py:145-166 | one row per period of the blogs and their counted views; `PerformanceTableCorrect` gives each row |
| Views.PerformanceTableCorrect | analytics/views.py:145-166 | rows follow the periods; `y` is the counted views of the period; the label counts its blogs; each row has a blog or a view; growth is none first and `Growth(y_i, y_{i-1})` after |
| Views.PerformanceOf | analytics/views.py:143-166 | the aggregation half answers `PerformanceTable` |
| Views.PerformanceQueries | analytics/views.py:139-150 | the blog query, author filter and view query answer `BlogsResponse` |
| Views.PerformanceAnalytics | analytics/views.py:126-168 | the handler answers `PerformanceResponse` |
| Views.PerformanceValidatesFirst | analytics/views.py:134-137 | `compare`, then the dates are checked, and a 400 does not depend on the tables |
| Views.DatedPerformanceFails | analytics/views.py:139-148 | a valid request with a date bound gets a server error |

## Left out

- Django's ORM itself is not modelled: SQL, laziness, and how `field__lookup` strings resolve. A filter's field is a whitelisted path whose value comes from an accessor. Lookup suffixes written inside `field`, and filters on date fields, are not modelled.
- Type coercion of filter values for `gt`, `lt`, `exact` and the rest is not modelled. A comparison between values of different kinds holds for no row.
- `contains` and `icontains` are substring tests on code points. SQLite's `LIKE` also ignores ASCII case for `contains`; this is not modelled.
- Database collation and NULL ordering are not modelled exactly. `order_by("period", "grouping_key")` puts NULL first and compares strings by code point.
- Ties in `order_by("-total_views")` keep the aggregate's order, which is first occurrence. The source leaves ties unordered, so no lemma claims an order among equal counts.
- `urllib.parse.unquote` and `json.loads` are model parameters, because they are library code.
- Text.Lower: lowers only A-Z and the Kelvin sign (U+212A) and keeps every other character, where `str.lower()` also lowers letters such as `À`. That is enough for the ASCII tokens `or`, `day`, `week`, `month` and `year`. `icontains`, modelled with `Lower` on both sides, therefore folds no other letters.
- JSON numbers are integers only (`JNum`). A float decoded by `json.loads`, such as a filter value `1.5`, cannot be represented.
- Calendar.ParseIsoDate: accepts ASCII digits only; `strptime` also accepts other Unicode decimal digits.
- Views.AuthorFilter: reads `user_id` as optional sign plus ASCII digits. `int()` would also accept surrounding whitespace, underscores between digits and other Unicode digits.
- Calendar.IsoDate: pads years below 1000 to four digits. Some platforms' `strftime` does not.
- Users carry only an id and a username. A filter path to any other user column, such as `author__email` or `viewer__email`, raises FieldError (`UnknownField`) in the model, where Django would resolve it. Reverse relations are not modelled either.
- Growth is exact `real` arithmetic. IEEE rounding and the float's rendering by the serializer are not modelled.
- Timestamps are naive: a date and a second of the day. Time zones, `USE_TZ` and the conversions the database truncations would make are not modelled.
- HTTP plumbing is not modelled: requests, `Response`, status codes as objects, DRF serializers, URL routing and the admin. A response is `Rows`, `BadRequest(message)` or `ServerError(cause)`.
- `Blog.content` and `BlogView.ip_address` are used only as filter fields: a clause such as `content` `icontains` reads them. `updated_at` is used only as a date field of the schema; no endpoint aggregates over it.
- `test_populate_data.py` is not part of this model. It seeds random data.
