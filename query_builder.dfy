/** AnalyticsQueryBuilder: the filter mini-language, its compilation into a Q-object tree,
    the date-range bound, granularity selection, and the filtered query the views run. */
module QueryBuilder {
  import opened Wrappers
  import opened Text
  import opened JsonValues
  import opened Calendar
  import opened Store

  /** The field lookups a clause can compile to. */
  datatype Lookup = Exact | Gt | Lt | Gte | Lte | Contains | IContains

  /** The OPERATORS table. */
  const Operators: map<string, Lookup> :=
    map["eq" := Exact, "gt" := Gt, "lt" := Lt, "gte" := Gte, "lte" := Lte,
        "contains" := Contains, "icontains" := IContains, "ne" := Exact]

  /** A Q object: `All` is the empty `Q()`, a leaf is `Q(field__lookup=value)`. */
  datatype Q =
    | All
    | Leaf(field: Json, lookup: Lookup, value: Json)
    | Not(negated: Q)
    | And(left: Q, right: Q)
    | Or(left: Q, right: Q)

  /** Errors the store or Python raises while a query is built. */
  datatype QueryError =
    | UnknownField(path: Json)   // FieldError: the path does not resolve on the model
    | NoneQueryValue             // ValueError: None used with a lookup other than exact
    | UnhashableOperator         // TypeError: a list or dict operator used as a dict key
    | DateOverflow               // OverflowError: end date 9999-12-31 plus one day
    | InvalidNumber              // ValueError: a non-numeric author id

  /** Three-way comparison of a field value with a filter value, where the two are comparable. */
  function Compare(fv: FieldValue, v: Json): (c: Option<int>)
    ensures c.Some? ==> -1 <= c.value <= 1
  {
    if fv.FInt? && v.JNum? then
      Some(if fv.i < v.n then -1 else if fv.i == v.n then 0 else 1)
    else if fv.FStr? && v.JStr? then
      Some(if StrLess(fv.s, v.s) then -1 else if fv.s == v.s then 0 else 1)
    else None
  }

  /** Exact match; `field=None` is `IS NULL`. */
  predicate Matches(fv: FieldValue, v: Json) {
    (fv.FNull? && v.JNull?) || (fv.FInt? && v.JNum? && fv.i == v.n) || (fv.FStr? && v.JStr? && fv.s == v.s)
  }

  /** Whether a lookup holds of a field value. */
  predicate Holds(lk: Lookup, fv: FieldValue, v: Json)
    ensures Holds(lk, fv, v) && lk != Exact ==> !fv.FNull? && !v.JNull?
    ensures Holds(lk, fv, v) && lk != Exact ==> (fv.FInt? && v.JNum?) || (fv.FStr? && v.JStr?)
    ensures Holds(lk, fv, v) && (lk == Contains || lk == IContains) ==> fv.FStr? && v.JStr?
  {
    match lk
    case Exact => Matches(fv, v)
    case Gt => Compare(fv, v) == Some(1)
    case Lt => Compare(fv, v) == Some(-1)
    case Gte => Compare(fv, v) == Some(1) || Compare(fv, v) == Some(0)
    case Lte => Compare(fv, v) == Some(-1) || Compare(fv, v) == Some(0)
    case Contains => fv.FStr? && v.JStr? && IsSubstring(v.s, fv.s)
    case IContains => fv.FStr? && v.JStr? && IsSubstring(Lower(v.s), Lower(fv.s))
  }

  /** Whether a record, given by its field accessor, satisfies a Q object. */
  predicate Eval(q: Q, look: string -> FieldValue) {
    match q
    case All => true
    case Leaf(f, lk, v) => f.JStr? && Holds(lk, look(f.s), v)
    case Not(q1) => !Eval(q1, look)
    case And(l, r) => Eval(l, look) && Eval(r, look)
    case Or(l, r) => Eval(l, look) || Eval(r, look)
  }

  /** The error the store raises when a Q object is applied to a model with these fields,
      leaves examined left to right. */
  function Problem(q: Q, fields: set<string>): Option<QueryError> {
    match q
    case All => None
    case Leaf(f, lk, v) =>
      if !(f.JStr? && f.s in fields) then Some(UnknownField(f))
      else if lk != Exact && v == JNull then Some(NoneQueryValue)
      else None
    case Not(q1) => Problem(q1, fields)
    case And(l, r) => if Problem(l, fields).Some? then Problem(l, fields) else Problem(r, fields)
    case Or(l, r) => if Problem(l, fields).Some? then Problem(l, fields) else Problem(r, fields)
  }

  /** The first error among a list of Q objects. */
  function FirstProblem(qs: seq<Q>, fields: set<string>): Option<QueryError> {
    if qs == [] then None
    else if Problem(qs[0], fields).Some? then Problem(qs[0], fields)
    else FirstProblem(qs[1..], fields)
  }

  /** `a & b`: combining with an empty Q() yields the other operand. */
  function Conj(a: Q, b: Q): (r: Q)
    ensures forall look :: Eval(r, look) == (Eval(a, look) && Eval(b, look))
    ensures forall fields :: Problem(r, fields) == if Problem(a, fields).Some? then Problem(a, fields) else Problem(b, fields)
  {
    if a == All then b else if b == All then a else And(a, b)
  }

  /** `a | b`: combining with an empty Q() yields the other operand, so `Q() | q` is `q`
      and not the match-everything predicate. */
  function Disj(a: Q, b: Q): (r: Q)
    ensures a == All ==> r == b
    ensures a != All && b != All ==> forall look :: Eval(r, look) == (Eval(a, look) || Eval(b, look))
    ensures forall fields :: Problem(r, fields) == if Problem(a, fields).Some? then Problem(a, fields) else Problem(b, fields)
  {
    if a == All then b else if b == All then a else Or(a, b)
  }

  /** `urllib.parse.unquote` and `json.loads` (None where it raises JSONDecodeError). */
  datatype Decoders = Decoders(unquote: string -> string, loads: string -> Option<Json>)

  /** `s.replace('\\"', '"')`: each backslash-quote pair, scanned left to right, becomes a quote. */
  function UnescapeQuotes(s: string): (r: string)
    ensures |r| <= |s|
    ensures (forall i :: 0 <= i < |s| ==> s[i] != '\\') ==> r == s
  {
    if |s| >= 2 && s[0] == '\\' && s[1] == '"' then "\"" + UnescapeQuotes(s[2..])
    else if s == [] then []
    else [s[0]] + UnescapeQuotes(s[1..])
  }

  /** Backslash-quote pairs become quotes, scanned left to right as `str.replace` scans. */
  lemma UnescapeQuotesExamples()
    ensures UnescapeQuotes("\\\"a\\\"") == "\"a\""
    ensures UnescapeQuotes("\\\\\"") == "\\\""
    ensures UnescapeQuotes("a\\") == "a\\"
  {
    assert UnescapeQuotes("\"") == "\"";
    assert UnescapeQuotes("a\\\"") == "a\"";
    assert UnescapeQuotes("\\") == "\\";
  }

  /** The text handed to the first `json.loads` attempt. */
  function Unescaped(s: string, dec: Decoders): string {
    UnescapeQuotes(dec.unquote(s))
  }

  /** The items of a decoded value if it is a list, and no items otherwise. */
  function ListItems(parsed: Json): (r: seq<Json>)
    ensures parsed.JArray? ==> r == parsed.items
    ensures !parsed.JArray? ==> r == []
  {
    if parsed.JArray? then parsed.items else []
  }

  /** parse_filters_string: never fails; anything it cannot read as a list gives no filters. */
  function ParseFiltersString(input: Json, dec: Decoders): (r: seq<Json>)
    ensures !Truthy(input) ==> r == []
    ensures input.JArray? ==> r == input.items
    ensures !input.JArray? && !input.JStr? ==> r == []
    ensures input.JStr? && r != [] ==>
              dec.loads(Unescaped(input.s, dec)) == Some(JArray(r))
              || (dec.loads(Unescaped(input.s, dec)).None? && dec.loads(input.s) == Some(JArray(r)))
    ensures input.JStr? && dec.loads(Unescaped(input.s, dec)).Some? && !dec.loads(Unescaped(input.s, dec)).value.JArray? ==> r == []
    ensures input.JStr? && input.s != "" && dec.loads(Unescaped(input.s, dec)).Some? && dec.loads(Unescaped(input.s, dec)).value.JArray? ==>
              r == dec.loads(Unescaped(input.s, dec)).value.items
    ensures input.JStr? && input.s != "" && dec.loads(Unescaped(input.s, dec)).None? && dec.loads(input.s).Some? && dec.loads(input.s).value.JArray? ==>
              r == dec.loads(input.s).value.items
    ensures input.JStr? && dec.loads(Unescaped(input.s, dec)).None? && (dec.loads(input.s).None? || !dec.loads(input.s).value.JArray?) ==> r == []
  {
    if !Truthy(input) then []
    else if input.JArray? then input.items
    else if input.JStr? then
      match dec.loads(Unescaped(input.s, dec))
      case Some(parsed) => ListItems(parsed)
      case None =>
        match dec.loads(input.s)
        case Some(parsed) => ListItems(parsed)
        case None => []
    else []
  }

  /** The per-item outcome of the compile loop: skipped, one Q object, or an exception. */
  datatype ClauseOutcome = Skipped | Compiled(q: Q) | Raised(error: QueryError)

  /** The lookup an operator that is neither `ne`, `contains` nor `icontains` selects. */
  function OperatorLookup(op: Json): Lookup {
    if op.JStr? && op.s in Operators then Operators[op.s] else Exact
  }

  /** One iteration of the compile loop over a filter item. */
  function CompileClause(item: Json): (c: ClauseOutcome)
    ensures c.Compiled? ==> c.q.Leaf? || (c.q.Not? && c.q.negated.Leaf?)
    ensures c.Skipped? <==> !item.JObject? || !Truthy(Get(item.members, "field", JNull))
  {
    if !item.JObject? then Skipped
    else
      var field := Get(item.members, "field", JNull);
      var op := Get(item.members, "operator", JStr("eq"));
      var value := Get(item.members, "value", JNull);
      if !Truthy(field) then Skipped
      else if op == JStr("ne") then Compiled(Not(Leaf(field, Exact, value)))
      else if op == JStr("contains") then Compiled(Leaf(field, Contains, value))
      else if op == JStr("icontains") then Compiled(Leaf(field, IContains, value))
      else if op.JArray? || op.JObject? then Raised(UnhashableOperator)
      else Compiled(Leaf(field, OperatorLookup(op), value))
  }

  /** The whole compile loop: the Q objects of the kept items in order, or the first exception. */
  function CompileAll(items: seq<Json>): (r: Result<seq<Q>, QueryError>)
    ensures r.Ok? ==> forall i :: 0 <= i < |r.value| ==> r.value[i] != All
    ensures r.Ok? ==> |r.value| <= |items|
  {
    if items == [] then Ok([])
    else
      match CompileAll(items[..|items| - 1])
      case Err(e) => Err(e)
      case Ok(qs) =>
        match CompileClause(items[|items| - 1])
        case Raised(e) => Err(e)
        case Skipped => Ok(qs)
        case Compiled(q) => Ok(qs + [q])
  }

  lemma {:induction false} CompileAllErrPersists(items: seq<Json>, k: nat)
    requires k <= |items| && CompileAll(items[..k]).Err?
    ensures CompileAll(items) == CompileAll(items[..k])
    decreases |items| - k
  {
    if k < |items| {
      assert items[..k + 1][..k] == items[..k];
      CompileAllErrPersists(items, k + 1);
    } else {
      assert items[..k] == items;
    }
  }

  /** The Q object an item contributes when it compiles, and nothing otherwise. */
  function KeptOf(item: Json): seq<Q> {
    match CompileClause(item)
    case Compiled(q) => [q]
    case _ => []
  }

  /** The compiled clauses of the items, first to last: a reference for the compile loop. */
  function KeptClauses(items: seq<Json>): seq<Q> {
    if items == [] then [] else KeptOf(items[0]) + KeptClauses(items[1..])
  }

  lemma {:induction false} KeptClausesSnoc(items: seq<Json>, x: Json)
    ensures KeptClauses(items + [x]) == KeptClauses(items) + KeptOf(x)
  {
    if items != [] {
      assert (items + [x])[1..] == items[1..] + [x];
      KeptClausesSnoc(items[1..], x);
    }
  }

  /** The compile loop fails exactly when some item raises, with the first raising item's
      error, and otherwise yields the compiled clauses of the items in order. */
  lemma {:induction false} CompileAllCorrect(items: seq<Json>)
    ensures CompileAll(items).Ok? <==> forall i :: 0 <= i < |items| ==> !CompileClause(items[i]).Raised?
    ensures CompileAll(items).Ok? ==> CompileAll(items).value == KeptClauses(items)
    ensures CompileAll(items).Err? ==>
              exists i :: 0 <= i < |items| && CompileClause(items[i]).Raised?
                          && CompileAll(items).error == CompileClause(items[i]).error
                          && forall j :: 0 <= j < i ==> !CompileClause(items[j]).Raised?
  {
    if items != [] {
      var init := items[..|items| - 1];
      var last := items[|items| - 1];
      assert items == init + [last];
      assert forall i :: 0 <= i < |init| ==> init[i] == items[i];
      CompileAllCorrect(init);
      KeptClausesSnoc(init, last);
      if CompileAll(init).Err? {
        var i :| 0 <= i < |init| && CompileClause(init[i]).Raised?
                 && CompileAll(init).error == CompileClause(init[i]).error
                 && forall j :: 0 <= j < i ==> !CompileClause(init[j]).Raised?;
        assert CompileClause(items[i]).Raised?;
      } else if CompileClause(last).Raised? {
        assert CompileClause(items[|items| - 1]).Raised?;
      }
    }
  }

  /** `logic.lower() == 'or'`. */
  predicate IsOr(logic: string) {
    Lower(logic) == "or"
  }

  /** What the combined filter means: no kept clause accepts everything; otherwise the
      disjunction of the clauses under `or` and their conjunction under any other token. */
  predicate Accepts(kept: seq<Q>, logic: string, look: string -> FieldValue) {
    if kept == [] then true
    else if IsOr(logic) then exists i :: 0 <= i < |kept| && Eval(kept[i], look)
    else forall i :: 0 <= i < |kept| ==> Eval(kept[i], look)
  }

  /** `q` is a combination of `kept` under `logic`, with the store errors of `kept`. */
  ghost predicate Combines(q: Q, kept: seq<Q>, logic: string) {
    && (kept == [] ==> q == All)
    && (forall look :: Eval(q, look) == Accepts(kept, logic, look))
    && (forall fields :: Problem(q, fields) == FirstProblem(kept, fields))
  }

  lemma {:induction false} FirstProblemSnoc(qs: seq<Q>, q: Q, fields: set<string>)
    ensures FirstProblem(qs + [q], fields) ==
            if FirstProblem(qs, fields).Some? then FirstProblem(qs, fields) else Problem(q, fields)
  {
    if qs != [] {
      assert (qs + [q])[1..] == qs[1..] + [q];
      FirstProblemSnoc(qs[1..], q, fields);
    }
  }

  /** build_filters: compiles the parsed items, then folds the Q objects with `|` or `&`. */
  method BuildFilters(filtersJson: Json, logic: string, dec: Decoders) returns (res: Result<Q, QueryError>)
    ensures CompileAll(ParseFiltersString(filtersJson, dec)).Err? ==>
              res == Err(CompileAll(ParseFiltersString(filtersJson, dec)).error)
    ensures CompileAll(ParseFiltersString(filtersJson, dec)).Ok? ==>
              res.Ok? && Combines(res.value, CompileAll(ParseFiltersString(filtersJson, dec)).value, logic)
  {
    var filters := ParseFiltersString(filtersJson, dec);
    if filters == [] {
      return Ok(All);
    }
    var qObjects: seq<Q> := [];
    var i := 0;
    while i < |filters|
      invariant 0 <= i <= |filters|
      invariant CompileAll(filters[..i]) == Ok(qObjects)
    {
      assert filters[..i + 1][..i] == filters[..i];
      var outcome := CompileClause(filters[i]);
      if outcome.Raised? {
        CompileAllErrPersists(filters, i + 1);
        return Err(outcome.error);
      }
      if outcome.Compiled? {
        qObjects := qObjects + [outcome.q];
      }
      i := i + 1;
    }
    assert filters[..i] == filters;
    if qObjects == [] {
      return Ok(All);
    }
    var combined;
    if IsOr(logic) {
      combined := FoldOr(qObjects);
    } else {
      combined := FoldAnd(qObjects);
    }
    return Ok(combined);
  }

  /** `combined_q = Q(); for q in q_objects: combined_q |= q`. */
  method FoldOr(qObjects: seq<Q>) returns (combined: Q)
    requires forall i :: 0 <= i < |qObjects| ==> qObjects[i] != All
    ensures qObjects == [] <==> combined == All
    ensures forall look :: Eval(combined, look) == (qObjects == [] || exists j :: 0 <= j < |qObjects| && Eval(qObjects[j], look))
    ensures forall fields :: Problem(combined, fields) == FirstProblem(qObjects, fields)
  {
    combined := All;
    var k := 0;
    while k < |qObjects|
      invariant 0 <= k <= |qObjects|
      invariant k == 0 <==> combined == All
      invariant k > 0 ==> forall look :: Eval(combined, look) == exists j :: 0 <= j < k && Eval(qObjects[j], look)
      invariant forall fields :: Problem(combined, fields) == FirstProblem(qObjects[..k], fields)
    {
      var q := qObjects[k];
      forall fields ensures Problem(Disj(combined, q), fields) == FirstProblem(qObjects[..k + 1], fields) {
        assert qObjects[..k + 1] == qObjects[..k] + [q];
        FirstProblemSnoc(qObjects[..k], q, fields);
      }
      combined := Disj(combined, q);
      k := k + 1;
    }
    assert qObjects[..k] == qObjects;
  }

  /** `combined_q = Q(); for q in q_objects: combined_q &= q`. */
  method FoldAnd(qObjects: seq<Q>) returns (combined: Q)
    requires forall i :: 0 <= i < |qObjects| ==> qObjects[i] != All
    ensures qObjects == [] <==> combined == All
    ensures forall look :: Eval(combined, look) == forall j :: 0 <= j < |qObjects| ==> Eval(qObjects[j], look)
    ensures forall fields :: Problem(combined, fields) == FirstProblem(qObjects, fields)
  {
    combined := All;
    var k := 0;
    while k < |qObjects|
      invariant 0 <= k <= |qObjects|
      invariant k == 0 <==> combined == All
      invariant forall look :: Eval(combined, look) == forall j :: 0 <= j < k ==> Eval(qObjects[j], look)
      invariant forall fields :: Problem(combined, fields) == FirstProblem(qObjects[..k], fields)
    {
      var q := qObjects[k];
      forall fields ensures Problem(Conj(combined, q), fields) == FirstProblem(qObjects[..k + 1], fields) {
        assert qObjects[..k + 1] == qObjects[..k] + [q];
        FirstProblemSnoc(qObjects[..k], q, fields);
      }
      combined := Conj(combined, q);
      k := k + 1;
    }
    assert qObjects[..k] == qObjects;
  }

  /** get_time_trunc_func: a case-insensitive lookup, month for any other token. */
  function TruncFor(rangeType: string): (g: Granularity)
    ensures Lower(rangeType) == "day" ==> g == Day
    ensures Lower(rangeType) == "week" ==> g == Week
    ensures Lower(rangeType) == "year" ==> g == Year
    ensures !(Lower(rangeType) in {"day", "week", "year"}) ==> g == Month
  {
    var truncFuncs := map["week" := Week, "month" := Month, "year" := Year, "day" := Day];
    var key := Lower(rangeType);
    if key in truncFuncs then truncFuncs[key] else Month
  }

  /** The date of the timestamp a date range tests. */
  function StampDate<R>(schema: Schema<R>, dateField: string, r: R): Date {
    schema.stamp(r, dateField).date
  }

  /** Inclusive date window: on or after `start`, on or before `end`. */
  predicate InWindow(d: Date, start: Option<Date>, end: Option<Date>) {
    (start.None? || AtOrBefore(start.value, d)) && (end.None? || AtOrBefore(d, end.value))
  }

  /** What apply_date_range is meant to compute: the rows whose date lies in the inclusive
      window, or the error naming the field that does not resolve, or the overflow of
      `end + 1 day`. */
  function DateWindow<R(!new)>(rows: seq<R>, schema: Schema<R>, start: Option<Date>, end: Option<Date>, dateField: string): Result<seq<R>, QueryError> {
    if start.Some? && dateField !in schema.dateFields then Err(UnknownField(JStr(dateField)))
    else if end == Some(Date(MaxYear, 12, 31)) then Err(DateOverflow)
    else if end.Some? && dateField !in schema.dateFields then Err(UnknownField(JStr(dateField)))
    else Ok(Select(rows, r => InWindow(StampDate(schema, dateField, r), start, end)))
  }

  /** apply_date_range: `>= start`, then `< end + 1 day`, each applied only when given. */
  method ApplyDateRange<R(!new)>(rows: seq<R>, schema: Schema<R>, start: Option<Date>, end: Option<Date>, dateField: string)
    returns (res: Result<seq<R>, QueryError>)
    requires start.Some? ==> InRange(start.value)
    requires end.Some? ==> InRange(end.value)
    requires WellStamped(rows, schema)
    ensures res == DateWindow(rows, schema, start, end, dateField)
  {
    var queryset := rows;
    var afterStart := (r: R) => !TsBefore(schema.stamp(r, dateField), Midnight(if start.Some? then start.value else Date(1, 1, 1)));
    if start.Some? {
      if dateField !in schema.dateFields {
        return Err(UnknownField(JStr(dateField)));
      }
      queryset := Select(queryset, afterStart);
    }
    if end.Some? {
      var bound := AddOneDay(end.value);
      if bound.None? {
        return Err(DateOverflow);
      }
      if dateField !in schema.dateFields {
        return Err(UnknownField(JStr(dateField)));
      }
      var beforeEnd := (r: R) => TsBefore(schema.stamp(r, dateField), Midnight(bound.value));
      var both := (r: R) => afterStart(r) && beforeEnd(r);
      if start.Some? {
        SelectSelect(rows, afterStart, beforeEnd);
        forall r | r in rows
          ensures both(r) == InWindow(StampDate(schema, dateField, r), start, end)
        {
          AtOrAfterMidnight(schema.stamp(r, dateField), start.value);
          BeforeMidnight(schema.stamp(r, dateField), bound.value);
        }
        SelectExtensional(rows, both, r => InWindow(StampDate(schema, dateField, r), start, end));
      } else {
        forall r | r in rows
          ensures beforeEnd(r) == InWindow(StampDate(schema, dateField, r), start, end)
        {
          BeforeMidnight(schema.stamp(r, dateField), bound.value);
        }
        SelectExtensional(rows, beforeEnd, r => InWindow(StampDate(schema, dateField, r), start, end));
      }
      queryset := Select(queryset, beforeEnd);
    } else if start.Some? {
      forall r | r in rows
        ensures afterStart(r) == InWindow(StampDate(schema, dateField, r), start, end)
      {
        AtOrAfterMidnight(schema.stamp(r, dateField), start.value);
      }
      SelectExtensional(rows, afterStart, r => InWindow(StampDate(schema, dateField, r), start, end));
    } else {
      SelectAll(rows, r => InWindow(StampDate(schema, dateField, r), start, end));
    }
    return Ok(queryset);
  }

  /** A record's field accessor under a schema. */
  function Look<R>(schema: Schema<R>, r: R): string -> FieldValue {
    path => schema.value(r, path)
  }

  /** `model_cls.objects.filter(q)`: the store resolves every leaf of `q` first. */
  function FilterRows<R(!new)>(rows: seq<R>, schema: Schema<R>, q: Q): (res: Result<seq<R>, QueryError>)
    ensures Problem(q, schema.fields).Some? ==> res == Err(Problem(q, schema.fields).value)
    ensures Problem(q, schema.fields).None? ==> res.Ok?
    ensures res.Ok? ==> forall r :: r in res.value <==> r in rows && Eval(q, Look(schema, r))
    ensures res.Ok? ==> forall r :: multiset(res.value)[r] == if Eval(q, Look(schema, r)) then multiset(rows)[r] else 0
  {
    match Problem(q, schema.fields)
    case Some(e) => Err(e)
    case None =>
      var keep := r => Eval(q, Look(schema, r));
      SelectCounts(rows, keep);
      Ok(Select(rows, keep))
  }

  /** What get_queryset_with_filters is meant to return: the rows the kept clauses accept
      under `logic` and whose date lies in the inclusive window, or the first error raised on
      the way (a bad operator, then an unresolvable clause, then the date bound). */
  function QueryRows<R(!new)>(rows: seq<R>, schema: Schema<R>, filtersJson: Json, logic: string,
                              start: Option<Date>, end: Option<Date>, dateField: string, dec: Decoders): Result<seq<R>, QueryError>
  {
    match CompileAll(ParseFiltersString(filtersJson, dec))
    case Err(e) => Err(e)
    case Ok(kept) =>
      match FirstProblem(kept, schema.fields)
      case Some(e) => Err(e)
      case None => DateWindow(Select(rows, r => Accepts(kept, logic, Look(schema, r))), schema, start, end, dateField)
  }

  /** get_queryset_with_filters: build the filter, apply it, then bound the dates. */
  method GetQuerysetWithFilters<R(!new)>(rows: seq<R>, schema: Schema<R>, filtersJson: Json, logic: string,
                                         start: Option<Date>, end: Option<Date>, dateField: string, dec: Decoders)
    returns (res: Result<seq<R>, QueryError>)
    requires start.Some? ==> InRange(start.value)
    requires end.Some? ==> InRange(end.value)
    requires WellStamped(rows, schema)
    ensures res == QueryRows(rows, schema, filtersJson, logic, start, end, dateField, dec)
  {
    var q := BuildFilters(filtersJson, logic, dec);
    if q.Err? {
      return Err(q.error);
    }
    var qs := FilterRows(rows, schema, q.value);
    if qs.Err? {
      return Err(qs.error);
    }
    var kept := CompileAll(ParseFiltersString(filtersJson, dec)).value;
    SelectExtensional(rows, r => Eval(q.value, Look(schema, r)), r => Accepts(kept, logic, Look(schema, r)));
    res := ApplyDateRange(qs.value, schema, start, end, dateField);
  }

  // ----- Properties of the filter language -----

  /** Input that is empty, not text and not a list, or text whose two decodings give no list,
      yields no filters. */
  lemma MalformedFiltersAreEmpty(input: Json, dec: Decoders)
    requires !input.JArray?
    requires input.JStr? ==> dec.loads(Unescaped(input.s, dec)).None? || !dec.loads(Unescaped(input.s, dec)).value.JArray?
    requires input.JStr? && dec.loads(Unescaped(input.s, dec)).None? ==> dec.loads(input.s).None? || !dec.loads(input.s).value.JArray?
    ensures ParseFiltersString(input, dec) == []
    ensures CompileAll(ParseFiltersString(input, dec)) == Ok([])
  {
  }

  /** Clauses that are all skipped compile to nothing. */
  lemma {:induction false} SkippedClausesCompileToNothing(items: seq<Json>)
    requires forall i :: 0 <= i < |items| ==> !items[i].JObject? || !Truthy(Get(items[i].members, "field", JNull))
    ensures CompileAll(items) == Ok([])
  {
    if items != [] {
      SkippedClausesCompileToNothing(items[..|items| - 1]);
      assert CompileClause(items[|items| - 1]).Skipped?;
    }
  }

  /** With no kept clause, the query keeps every row: filtering is bounded by dates alone. */
  lemma NoClauseKeepsEverything<R(!new)>(rows: seq<R>, schema: Schema<R>, filtersJson: Json, logic: string,
                                          start: Option<Date>, end: Option<Date>, dateField: string, dec: Decoders)
    requires CompileAll(ParseFiltersString(filtersJson, dec)) == Ok([])
    ensures QueryRows(rows, schema, filtersJson, logic, start, end, dateField, dec) == DateWindow(rows, schema, start, end, dateField)
  {
    SelectAll(rows, r => Accepts([], logic, Look(schema, r)));
  }

  /** A missing operator behaves as `eq`. */
  lemma MissingOperatorIsEq(m: map<string, Json>)
    requires "operator" !in m
    ensures CompileClause(JObject(m)) == CompileClause(JObject(m["operator" := JStr("eq")]))
  {
  }

  /** An operator outside the table that is not a list or a dict behaves as `eq`. */
  lemma UnknownOperatorIsEq(m: map<string, Json>)
    requires "operator" in m && !m["operator"].JArray? && !m["operator"].JObject?
    requires !(m["operator"].JStr? && m["operator"].s in Operators)
    ensures CompileClause(JObject(m)) == CompileClause(JObject(m["operator" := JStr("eq")]))
  {
  }

  /** A list or dict operator raises, unless the field is empty. */
  lemma UnhashableOperatorRaises(m: map<string, Json>)
    requires Truthy(Get(m, "field", JNull)) && "operator" in m && (m["operator"].JArray? || m["operator"].JObject?)
    ensures CompileClause(JObject(m)) == Raised(UnhashableOperator)
  {
  }

  /** Each table operator other than `ne` selects its lookup from the table. */
  lemma TableOperators(m: map<string, Json>, op: string)
    requires Truthy(Get(m, "field", JNull)) && op in Operators && op != "ne"
    ensures CompileClause(JObject(m["operator" := JStr(op)])) ==
            Compiled(Leaf(Get(m, "field", JNull), Operators[op], Get(m, "value", JNull)))
  {
  }

  /** `ne` accepts exactly the records `eq` rejects, and raises exactly as `eq` does. */
  lemma NeNegatesEq(m: map<string, Json>, look: string -> FieldValue, fields: set<string>)
    requires Truthy(Get(m, "field", JNull))
    ensures CompileClause(JObject(m["operator" := JStr("ne")])).Compiled?
    ensures CompileClause(JObject(m["operator" := JStr("eq")])).Compiled?
    ensures Eval(CompileClause(JObject(m["operator" := JStr("ne")])).q, look) ==
            !Eval(CompileClause(JObject(m["operator" := JStr("eq")])).q, look)
    ensures Problem(CompileClause(JObject(m["operator" := JStr("ne")])).q, fields) ==
            Problem(CompileClause(JObject(m["operator" := JStr("eq")])).q, fields)
  {
  }

  /** On comparable values exactly one of `lt`, `eq`, `gt` holds, `gte` is `gt` or `eq`
      and `lte` is `lt` or `eq`. */
  lemma ComparisonsPartition(fv: FieldValue, v: Json)
    requires (fv.FInt? && v.JNum?) || (fv.FStr? && v.JStr?)
    ensures Holds(Lt, fv, v) || Holds(Exact, fv, v) || Holds(Gt, fv, v)
    ensures !(Holds(Lt, fv, v) && Holds(Exact, fv, v))
    ensures !(Holds(Gt, fv, v) && Holds(Exact, fv, v))
    ensures !(Holds(Lt, fv, v) && Holds(Gt, fv, v))
    ensures Holds(Gte, fv, v) <==> Holds(Gt, fv, v) || Holds(Exact, fv, v)
    ensures Holds(Lte, fv, v) <==> Holds(Lt, fv, v) || Holds(Exact, fv, v)
  {
    if fv.FStr? {
      StrLessTrichotomy(fv.s, v.s);
      StrLessIrreflexive(fv.s);
    }
  }

  /** `contains` implies `icontains`, and `icontains` ignores the case of the record's text. */
  lemma ContainsImpliesIContains(s: string, t: string)
    ensures Holds(Contains, FStr(s), JStr(t)) ==> Holds(IContains, FStr(s), JStr(t))
    ensures Holds(IContains, FStr(s), JStr(t)) == Holds(IContains, FStr(Lower(s)), JStr(t))
  {
    if IsSubstring(t, s) { SubstringLower(t, s); }
    LowerIdempotent(s);
  }

  /** Over the same clauses, whatever `and` accepts `or` accepts too. */
  lemma AndWithinOr(kept: seq<Q>, andLogic: string, orLogic: string, look: string -> FieldValue)
    requires !IsOr(andLogic) && IsOr(orLogic)
    ensures Accepts(kept, andLogic, look) ==> Accepts(kept, orLogic, look)
  {
    if kept != [] && Accepts(kept, andLogic, look) {
      assert Eval(kept[0], look);
    }
  }

  /** The same, for the rows the whole query returns. */
  lemma AndRowsWithinOrRows<R(!new)>(rows: seq<R>, schema: Schema<R>, filtersJson: Json, andLogic: string, orLogic: string,
                                     start: Option<Date>, end: Option<Date>, dateField: string, dec: Decoders)
    requires !IsOr(andLogic) && IsOr(orLogic)
    requires QueryRows(rows, schema, filtersJson, andLogic, start, end, dateField, dec).Ok?
    ensures QueryRows(rows, schema, filtersJson, orLogic, start, end, dateField, dec).Ok?
    ensures multiset(QueryRows(rows, schema, filtersJson, andLogic, start, end, dateField, dec).value)
            <= multiset(QueryRows(rows, schema, filtersJson, orLogic, start, end, dateField, dec).value)
  {
    var kept := CompileAll(ParseFiltersString(filtersJson, dec)).value;
    var pa := r => Accepts(kept, andLogic, Look(schema, r));
    var po := r => Accepts(kept, orLogic, Look(schema, r));
    var w := r => InWindow(StampDate(schema, dateField, r), start, end);
    var resA := Select(Select(rows, pa), w);
    var resO := Select(Select(rows, po), w);
    assert QueryRows(rows, schema, filtersJson, andLogic, start, end, dateField, dec).value == resA;
    assert QueryRows(rows, schema, filtersJson, orLogic, start, end, dateField, dec) == Ok(resO);
    forall x ensures multiset(resA)[x] <= multiset(resO)[x] {
      SelectCount(Select(rows, pa), w, x);
      SelectCount(Select(rows, po), w, x);
      SelectCount(rows, pa, x);
      SelectCount(rows, po, x);
      if x in rows {
        AndWithinOr(kept, andLogic, orLogic, Look(schema, x));
      }
    }
  }

  /** The query never invents rows or repeats them. */
  lemma QueryRowsSubset<R(!new)>(rows: seq<R>, schema: Schema<R>, filtersJson: Json, logic: string,
                                 start: Option<Date>, end: Option<Date>, dateField: string, dec: Decoders)
    requires QueryRows(rows, schema, filtersJson, logic, start, end, dateField, dec).Ok?
    ensures multiset(QueryRows(rows, schema, filtersJson, logic, start, end, dateField, dec).value) <= multiset(rows)
  {
  }

  /** A successful date range keeps exactly the rows dated inside the inclusive window, and
      nothing that was not there already. */
  lemma DateWindowKeeps<R(!new)>(rows: seq<R>, schema: Schema<R>, start: Option<Date>, end: Option<Date>, dateField: string)
    requires DateWindow(rows, schema, start, end, dateField).Ok?
    ensures multiset(DateWindow(rows, schema, start, end, dateField).value) <= multiset(rows)
    ensures forall r :: r in DateWindow(rows, schema, start, end, dateField).value <==>
              r in rows && InWindow(StampDate(schema, dateField, r), start, end)
    ensures DateWindow(rows, schema, None, None, dateField).value == rows
  {
    SelectAll(rows, r => InWindow(StampDate(schema, dateField, r), None, None));
  }

  /** A row dated on the end day is kept and a row dated the day after is dropped. */
  lemma EndDayInclusive<R(!new)>(rows: seq<R>, schema: Schema<R>, start: Option<Date>, end: Date, dateField: string, r: R)
    requires r in rows && InRange(end) && end != Date(MaxYear, 12, 31) && dateField in schema.dateFields
    requires start.None? || AtOrBefore(start.value, end)
    ensures DateWindow(rows, schema, start, Some(end), dateField).Ok?
    ensures StampDate(schema, dateField, r) == end ==> r in DateWindow(rows, schema, start, Some(end), dateField).value
    ensures StampDate(schema, dateField, r) == NextDay(end) ==> r !in DateWindow(rows, schema, start, Some(end), dateField).value
  {
    NextDayIsSuccessor(end, end);
  }

  /** A date field the model lacks makes any date bound fail, whatever the rows. */
  lemma MissingDateFieldFails<R(!new)>(rows: seq<R>, schema: Schema<R>, start: Option<Date>, end: Option<Date>, dateField: string)
    requires dateField !in schema.dateFields && (start.Some? || end.Some?)
    ensures DateWindow(rows, schema, start, end, dateField).Err?
  {
  }
}
