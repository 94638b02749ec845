/** The three analytics endpoints: request parameters, validation, the filtered queries and
    the aggregate rows each returns. */
module Views {
  import opened Wrappers
  import opened Text
  import opened JsonValues
  import opened Calendar
  import opened Models
  import opened Store
  import opened QueryBuilder
  import opened Calculator
  import opened Aggregation

  /** The two tables. */
  datatype Database = Database(blogs: seq<Blog>, views: seq<BlogView>)

  predicate WellFormed(db: Database) {
    (forall b :: b in db.blogs ==> BlogWellFormed(b)) && (forall v :: v in db.views ==> ViewWellFormed(v))
  }

  /** The query string, one value per parameter. */
  type Params = map<string, string>

  /** `request.GET.get(name)`. */
  function OptParam(params: Params, name: string): (v: Option<string>)
    ensures name in params ==> v == Some(params[name])
    ensures name !in params ==> v.None?
  {
    if name in params then Some(params[name]) else None
  }

  // ----- parse_date -----

  /** The three outcomes of parse_date: no date, a date, or the "invalid" marker. */
  datatype DateParam = NoDate | OnDate(date: Date) | InvalidDate

  function ParseDate(s: Option<string>): (r: DateParam)
    ensures (s.None? || s.value == "") <==> r == NoDate
    ensures r.OnDate? ==> InRange(r.date) && ParseIsoDate(s.value) == Some(r.date)
    ensures r == InvalidDate <==> s.Some? && s.value != "" && ParseIsoDate(s.value).None?
  {
    if s.None? || s.value == "" then NoDate
    else
      match ParseIsoDate(s.value)
      case Some(d) => OnDate(d)
      case None => InvalidDate
  }

  /** A date written as YYYY-MM-DD reads back as itself. */
  lemma ParseDateOfIsoDate(d: Date)
    requires InRange(d)
    ensures ParseDate(Some(IsoDate(d))) == OnDate(d)
  {
    ParseIsoDateOfIsoDate(d);
  }

  lemma ParseDateExamples()
    ensures ParseDate(None) == NoDate
    ensures ParseDate(Some("")) == NoDate
    ensures ParseDate(Some("2024-02-30")) == InvalidDate
    ensures ParseDate(Some("2024-1-5")) == OnDate(Date(2024, 1, 5))
  {
    ParseIsoDateExamples();
  }

  /** The bound a date parameter imposes. */
  function Bound(p: DateParam): (b: Option<Date>)
    ensures b.Some? <==> p.OnDate?
    ensures b.Some? ==> b.value == p.date
  {
    if p.OnDate? then Some(p.date) else None
  }

  // ----- Responses -----

  /** A 200 response with rows, a 400 response with its message, or a 500 from the store. */
  datatype Response<T> = Rows(rows: seq<T>) | BadRequest(error: string) | ServerError(cause: QueryError)

  const ObjectTypeMessage: string := "object_type must be \"country\" or \"user\""
  const RangeMessage: string := "range must be one of: day, week, month, year"
  const DateMessage: string := "Dates must be in YYYY-MM-DD format"
  const TopMessage: string := "top must be one of: \"user\", \"country\", \"blog\""
  const CompareMessage: string := "compare must be one of: \"day\", \"week\", \"month\", \"year\""

  const Granularities: seq<string> := ["day", "week", "month", "year"]

  /** The parameters every endpoint reads alike. */
  datatype Common = Common(start: DateParam, end: DateParam, filters: Json, logic: string)

  function CommonParams(params: Params): (c: Common)
    ensures c.start == ParseDate(OptParam(params, "start_date")) && c.end == ParseDate(OptParam(params, "end_date"))
    ensures "filters" in params ==> c.filters == JStr(params["filters"])
    ensures "filters" !in params ==> c.filters == JNull
    ensures c.logic == Get(params, "logic", "and")
  {
    Common(ParseDate(OptParam(params, "start_date")), ParseDate(OptParam(params, "end_date")),
           if "filters" in params then JStr(params["filters"]) else JNull,
           Get(params, "logic", "and"))
  }

  predicate DatesInvalid(c: Common) {
    c.start == InvalidDate || c.end == InvalidDate
  }

  /** get_queryset_with_filters(BlogView, ...) as the endpoints call it, that is with the
      default date field `created_at`. */
  function ViewQuery(db: Database, c: Common, dec: Decoders): Result<seq<BlogView>, QueryError> {
    QueryRows(db.views, ViewSchema, c.filters, c.logic, Bound(c.start), Bound(c.end), "created_at", dec)
  }

  /** The views a successful view query returns are stored views. */
  lemma ViewQueryFromStore(db: Database, c: Common, dec: Decoders)
    requires ViewQuery(db, c, dec).Ok?
    ensures forall v :: v in ViewQuery(db, c, dec).value ==> v in db.views
  {
    QueryRowsSubset(db.views, ViewSchema, c.filters, c.logic, Bound(c.start), Bound(c.end), "created_at", dec);
    forall v | v in ViewQuery(db, c, dec).value ensures v in db.views {
      assert v in multiset(ViewQuery(db, c, dec).value);
    }
  }

  // ----- /analytics/blog-views/ -----

  /** A (period, country-or-username) pair. */
  type SeriesKey = (Date, Option<string>)

  /** NULL sorts before any text, text by code point. */
  predicate OptLess(a: Option<string>, b: Option<string>) {
    (a.None? && b.Some?) || (a.Some? && b.Some? && StrLess(a.value, b.value))
  }

  /** `order_by("period", "grouping_key")`. */
  predicate KeyLess(a: SeriesKey, b: SeriesKey) {
    Before(a.0, b.0) || (a.0 == b.0 && OptLess(a.1, b.1))
  }

  lemma KeyLessTotal(a: SeriesKey, b: SeriesKey)
    ensures a == b || KeyLess(a, b) || KeyLess(b, a)
    ensures !(KeyLess(a, b) && KeyLess(b, a))
    ensures !KeyLess(a, a)
  {
    BeforeTotal(a.0, b.0);
    if a.1.Some? && b.1.Some? {
      StrLessTrichotomy(a.1.value, b.1.value);
      if StrLess(a.1.value, b.1.value) {
        StrLessAsymmetric(a.1.value, b.1.value);
      }
    }
    if a.1.Some? {
      StrLessIrreflexive(a.1.value);
    }
  }

  lemma KeyLessTransitive(a: SeriesKey, b: SeriesKey, c: SeriesKey)
    requires KeyLess(a, b) && KeyLess(b, c)
    ensures KeyLess(a, c)
  {
    if a.0 == b.0 && b.0 == c.0 && a.1.Some? {
      StrLessTransitive(a.1.value, b.1.value, c.1.value);
    }
  }

  /** Groups ordered by key. */
  const SeriesOrder: (Group<SeriesKey>, Group<SeriesKey>) -> bool :=
    (a: Group<SeriesKey>, b: Group<SeriesKey>) => a.key == b.key || KeyLess(a.key, b.key)

  lemma SeriesOrderTotal()
    ensures TotalPreorder(SeriesOrder)
  {
    forall a: Group<SeriesKey>, b: Group<SeriesKey> ensures SeriesOrder(a, b) || SeriesOrder(b, a) {
      KeyLessTotal(a.key, b.key);
    }
    forall a: Group<SeriesKey>, b: Group<SeriesKey>, c: Group<SeriesKey> | SeriesOrder(a, b) && SeriesOrder(b, c)
      ensures SeriesOrder(a, c)
    {
      if KeyLess(a.key, b.key) && KeyLess(b.key, c.key) {
        KeyLessTransitive(a.key, b.key, c.key);
      }
    }
  }

  /** `viewer__username`, NULL for an anonymous view. */
  function ViewerName(v: BlogView): (n: Option<string>)
    ensures n.Some? <==> v.viewer.Some?
    ensures n.Some? ==> n.value == v.viewer.value.username
  {
    if v.viewer.Some? then Some(v.viewer.value.username) else None
  }

  /** `viewer_id`, NULL for an anonymous view. */
  function ViewerTag(v: BlogView): (t: Option<int>)
    ensures t.Some? <==> v.viewer.Some?
    ensures t.Some? ==> t.value == v.viewer.value.id
  {
    if v.viewer.Some? then Some(v.viewer.value.id) else None
  }

  /** `annotate(period=trunc_func("viewed_at"), grouping_key=...)`, with the blog counted. */
  function SeriesAnnotate(views: seq<BlogView>, byCountry: bool, g: Granularity): (rows: seq<Annotated<SeriesKey>>)
    requires forall v :: v in views ==> ViewWellFormed(v)
    ensures |rows| == |views|
    ensures forall i :: 0 <= i < |views| ==>
              InRange(views[i].viewedAt.date)
              && rows[i].key.0 == Truncate(g, views[i].viewedAt.date)
              && rows[i].key.1 == (if byCountry then views[i].viewerCountry else ViewerName(views[i]))
              && rows[i].tag == Some(views[i].blog.id)
    ensures forall i :: 0 <= i < |rows| ==> InRange(rows[i].key.0)
  {
    ViewDates(views);
    seq(|views|, i requires 0 <= i < |views| && InRange(views[i].viewedAt.date) =>
      Annotated((Truncate(g, views[i].viewedAt.date), if byCountry then views[i].viewerCountry else ViewerName(views[i])),
                Some(views[i].blog.id)))
  }

  /** The aggregate rows in `order_by("period", "grouping_key")` order. */
  function SeriesGroups(views: seq<BlogView>, byCountry: bool, g: Granularity): (gs: seq<Group<SeriesKey>>)
    requires forall v :: v in views ==> ViewWellFormed(v)
    ensures forall x :: x in gs ==> InRange(x.key.0)
  {
    var rows := SeriesAnnotate(views, byCountry, g);
    var grouped := Aggregate(rows);
    GroupKeysFromRows(rows, RowKey, RowTag, (k: SeriesKey) => InRange(k.0));
    var gs := Sort(grouped, SeriesOrder);
    assert forall x :: x in gs ==> x in multiset(grouped);
    gs
  }

  /** `item or "Unknown"` for a nullable text. */
  function OrUnknown(o: Option<string>): (s: string)
    ensures s == "Unknown" <==> o.None? || o.value == "" || o.value == "Unknown"
    ensures o.Some? && o.value != "" ==> s == o.value
  {
    if o.None? || o.value == "" then "Unknown" else o.value
  }

  /** One time-series row: its label, distinct blogs and views. */
  datatype SeriesRow = SeriesRow(x: string, y: nat, z: nat)

  function SeriesLabel(k: SeriesKey): (s: string)
    requires InRange(k.0)
    ensures s == OrUnknown(k.1) + " - " + IsoDate(k.0)
  {
    OrUnknown(k.1) + " - " + IsoDate(k.0)
  }

  /** The rows of the list comprehension over the aggregate. */
  function SeriesTable(views: seq<BlogView>, byCountry: bool, g: Granularity): (rows: seq<SeriesRow>)
    requires forall v :: v in views ==> ViewWellFormed(v)
    ensures |rows| == |SeriesGroups(views, byCountry, g)|
    ensures forall i :: 0 <= i < |rows| ==> rows[i].z == SeriesGroups(views, byCountry, g)[i].count
  {
    var gs := SeriesGroups(views, byCountry, g);
    seq(|gs|, i requires 0 <= i < |gs| =>
      assert gs[i] in gs;
      SeriesRow(SeriesLabel(gs[i].key), |gs[i].ids|, gs[i].count))
  }

  /** The ordered aggregate: one group per distinct (period, key), strictly ordered by
      (period, key), each with its views and at least one blog. */
  lemma SeriesGroupsCorrect(views: seq<BlogView>, byCountry: bool, g: Granularity)
    requires forall v :: v in views ==> ViewWellFormed(v)
    ensures IsGrouping(SeriesGroups(views, byCountry, g), SeriesAnnotate(views, byCountry, g), RowKey, RowTag)
    ensures forall i, j :: 0 <= i < j < |SeriesGroups(views, byCountry, g)| ==>
              KeyLess(SeriesGroups(views, byCountry, g)[i].key, SeriesGroups(views, byCountry, g)[j].key)
    ensures forall i :: 0 <= i < |SeriesGroups(views, byCountry, g)| ==> 1 <= |SeriesGroups(views, byCountry, g)[i].ids|
  {
    var ann := SeriesAnnotate(views, byCountry, g);
    var gs := SeriesGroups(views, byCountry, g);
    SeriesOrderTotal();
    SortedAggregate(ann, SeriesOrder);
    forall i, j | 0 <= i < j < |gs| ensures KeyLess(gs[i].key, gs[j].key) {
      assert SeriesOrder(gs[i], gs[j]);
    }
    forall i | 0 <= i < |gs| ensures 1 <= |gs[i].ids| {
      NonEmptyIds(ann, gs[i].key);
    }
  }

  /** The sum of the `z` column. */
  function TotalViews(rows: seq<SeriesRow>): nat {
    if rows == [] then 0 else TotalViews(rows[..|rows| - 1]) + rows[|rows| - 1].z
  }

  lemma {:induction false} TotalViewsOfGroups(rows: seq<SeriesRow>, gs: seq<Group<SeriesKey>>)
    requires |rows| == |gs| && forall i :: 0 <= i < |gs| ==> rows[i].z == gs[i].count
    ensures TotalViews(rows) == TotalCount(gs)
  {
    if rows != [] {
      TotalViewsOfGroups(rows[..|rows| - 1], gs[..|gs| - 1]);
    }
  }

  /** The time series: one row per ordered group, labelled "<key or Unknown> - <period>",
      with distinct blogs `y` between 1 and the views `z`, all views accounted for. */
  lemma SeriesTableCorrect(views: seq<BlogView>, byCountry: bool, g: Granularity)
    requires forall v :: v in views ==> ViewWellFormed(v)
    ensures |SeriesTable(views, byCountry, g)| == |SeriesGroups(views, byCountry, g)|
    ensures forall i :: 0 <= i < |SeriesGroups(views, byCountry, g)| ==>
              var k := SeriesGroups(views, byCountry, g)[i].key;
              InRange(k.0)
              && SeriesTable(views, byCountry, g)[i].x == OrUnknown(k.1) + " - " + IsoDate(k.0)
              && SeriesTable(views, byCountry, g)[i].z == CountFor(SeriesAnnotate(views, byCountry, g), RowKey, k)
              && SeriesTable(views, byCountry, g)[i].y == |IdsFor(SeriesAnnotate(views, byCountry, g), RowKey, RowTag, k)|
              && 1 <= SeriesTable(views, byCountry, g)[i].y <= SeriesTable(views, byCountry, g)[i].z
  {
    var gs := SeriesGroups(views, byCountry, g);
    var rows := SeriesTable(views, byCountry, g);
    SeriesGroupsCorrect(views, byCountry, g);
    forall i | 0 <= i < |gs|
      ensures InRange(gs[i].key.0) && rows[i].x == OrUnknown(gs[i].key.1) + " - " + IsoDate(gs[i].key.0)
    {
      assert gs[i] in gs;
    }
  }

  /** Every view of the query lands in exactly one row: the `z` column sums to the views. */
  lemma SeriesTotalViews(views: seq<BlogView>, byCountry: bool, g: Granularity)
    requires forall v :: v in views ==> ViewWellFormed(v)
    ensures TotalViews(SeriesTable(views, byCountry, g)) == |views|
  {
    var gs := SeriesGroups(views, byCountry, g);
    var rows := SeriesTable(views, byCountry, g);
    SeriesGroupsCorrect(views, byCountry, g);
    TotalViewsOfGroups(rows, gs);
  }

  /** A key that occurs, with every row tagged, counts at least one distinct tag. */
  lemma {:induction false} NonEmptyIds(ann: seq<Annotated<SeriesKey>>, k: SeriesKey)
    requires forall j :: 0 <= j < |ann| ==> ann[j].tag.Some?
    requires CountFor(ann, RowKey, k) >= 1
    ensures |IdsFor(ann, RowKey, RowTag, k)| >= 1
  {
    var init := ann[..|ann| - 1];
    if RowKey(ann[|ann| - 1]) != k {
      NonEmptyIds(init, k);
    }
  }

  /** What BlogViewsAnalyticsAPI.get answers. */
  function SeriesResponse(db: Database, params: Params, dec: Decoders): Response<SeriesRow>
    requires WellFormed(db)
  {
    var objectType := Get(params, "object_type", "country");
    var rangeType := Get(params, "range", "month");
    var c := CommonParams(params);
    if objectType != "country" && objectType != "user" then BadRequest(ObjectTypeMessage)
    else if rangeType !in Granularities then BadRequest(RangeMessage)
    else if DatesInvalid(c) then BadRequest(DateMessage)
    else
      match ViewQuery(db, c, dec)
      case Err(e) => ServerError(e)
      case Ok(views) =>
        ViewQueryFromStore(db, c, dec);
        Rows(SeriesTable(views, objectType == "country", TruncFor(rangeType)))
  }

  /** BlogViewsAnalyticsAPI.get. */
  method BlogViewsAnalytics(db: Database, params: Params, dec: Decoders) returns (resp: Response<SeriesRow>)
    requires WellFormed(db)
    ensures resp == SeriesResponse(db, params, dec)
  {
    var objectType := Get(params, "object_type", "country");
    var rangeType := Get(params, "range", "month");
    var c := CommonParams(params);
    if objectType != "country" && objectType != "user" {
      return BadRequest(ObjectTypeMessage);
    }
    if rangeType !in Granularities {
      return BadRequest(RangeMessage);
    }
    if DatesInvalid(c) {
      return BadRequest(DateMessage);
    }
    ViewsWellStamped(db.views);
    var views := GetQuerysetWithFilters(db.views, ViewSchema, c.filters, c.logic, Bound(c.start), Bound(c.end), "created_at", dec);
    if views.Err? {
      return ServerError(views.error);
    }
    ViewQueryFromStore(db, c, dec);
    var truncFunc := TruncFor(rangeType);
    resp := Rows(SeriesTable(views.value, objectType == "country", truncFunc));
  }

  /** Any date bound makes a view query fail: views have no `created_at`. */
  lemma DatedViewQueryFails(db: Database, c: Common, dec: Decoders)
    requires c.start.OnDate? || c.end.OnDate?
    ensures ViewQuery(db, c, dec).Err?
  {
    var kept := CompileAll(ParseFiltersString(c.filters, dec));
    if kept.Ok? && FirstProblem(kept.value, ViewSchema.fields).None? {
      var sel := Select(db.views, r => Accepts(kept.value, c.logic, Look(ViewSchema, r)));
      MissingDateFieldFails(sel, ViewSchema, Bound(c.start), Bound(c.end), "created_at");
    }
  }

  /** Validation answers before any query, in a fixed order, whatever the tables hold. */
  lemma SeriesValidatesFirst(db1: Database, db2: Database, params: Params, dec1: Decoders, dec2: Decoders)
    requires WellFormed(db1) && WellFormed(db2)
    ensures var objectType := Get(params, "object_type", "country");
            var rangeType := Get(params, "range", "month");
            && (objectType != "country" && objectType != "user" ==> SeriesResponse(db1, params, dec1) == BadRequest(ObjectTypeMessage))
            && ((objectType == "country" || objectType == "user") && rangeType !in Granularities ==>
                  SeriesResponse(db1, params, dec1) == BadRequest(RangeMessage))
            && ((objectType == "country" || objectType == "user") && rangeType in Granularities && DatesInvalid(CommonParams(params)) ==>
                  SeriesResponse(db1, params, dec1) == BadRequest(DateMessage))
            && (SeriesResponse(db1, params, dec1).BadRequest? ==> SeriesResponse(db1, params, dec1) == SeriesResponse(db2, params, dec2))
  {
  }

  /** Once validation passes, a date bound ends in a store error on this endpoint. */
  lemma DatedSeriesFails(db: Database, params: Params, dec: Decoders)
    requires WellFormed(db)
    requires SeriesResponse(db, params, dec).Rows?
    ensures CommonParams(params).start == NoDate && CommonParams(params).end == NoDate
  {
    var c := CommonParams(params);
    if c.start.OnDate? || c.end.OnDate? {
      DatedViewQueryFails(db, c, dec);
    }
  }

  /** The granularity of a validated request is the one it names. */
  lemma GranularityOfValidToken(t: string)
    requires t in Granularities
    ensures TruncFor(t) == (if t == "day" then Day else if t == "week" then Week else if t == "month" then Month else Year)
  {
    assert Lower("day") == "day" && Lower("week") == "week" && Lower("month") == "month" && Lower("year") == "year";
  }

  // ----- /analytics/top/ -----

  /** One ranked row: its rank, label, total views and distinct count. */
  datatype TopRow = TopRow(rank: nat, x: string, y: nat, z: nat)

  /** The blog mode's grouping: `blog__id`, `blog__title`, `blog__author__username`. */
  type BlogKey = (int, string, string)

  function BlogKeyOf(v: BlogView): BlogKey {
    (v.blog.id, v.blog.title, v.blog.author.username)
  }

  /** `d["blog_title"] or f"Blog {d['blog__id']}"`. */
  function BlogLabel(k: BlogKey): (s: string)
    ensures k.1 != "" ==> s == k.1
    ensures k.1 == "" ==> s == "Blog " + IntToString(k.0)
  {
    if k.1 == "" then "Blog " + IntToString(k.0) else k.1
  }

  /** `d["username"] or "Anonymous"`. */
  function UserLabel(k: Option<string>): (s: string)
    ensures (k.None? || k.value == "") ==> s == "Anonymous"
    ensures k.Some? && k.value != "" ==> s == k.value
  {
    if k.None? || k.value == "" then "Anonymous" else k.value
  }

  predicate HasViewer(v: BlogView) { v.viewer.Some? }

  predicate HasCountry(v: BlogView) { v.viewerCountry.Some? }

  /** Blog mode: every view, counting distinct viewers. */
  function BlogAnnotate(views: seq<BlogView>): (rows: seq<Annotated<BlogKey>>)
    ensures |rows| == |views|
    ensures forall i :: 0 <= i < |views| ==> rows[i] == Annotated(BlogKeyOf(views[i]), ViewerTag(views[i]))
  {
    seq(|views|, i requires 0 <= i < |views| => Annotated(BlogKeyOf(views[i]), ViewerTag(views[i])))
  }

  /** User mode: `filter(viewer__isnull=False)`, counting distinct blogs. */
  function UserAnnotate(views: seq<BlogView>): (rows: seq<Annotated<Option<string>>>)
    ensures |rows| == |Select(views, HasViewer)|
    ensures forall i :: 0 <= i < |rows| ==>
              rows[i] == Annotated(ViewerName(Select(views, HasViewer)[i]), Some(Select(views, HasViewer)[i].blog.id))
  {
    var kept := Select(views, HasViewer);
    seq(|kept|, i requires 0 <= i < |kept| => Annotated(ViewerName(kept[i]), Some(kept[i].blog.id)))
  }

  /** Country mode: `exclude(viewer_country__isnull=True)`, counting distinct viewers. */
  function CountryAnnotate(views: seq<BlogView>): (rows: seq<Annotated<Option<string>>>)
    ensures |rows| == |Select(views, HasCountry)|
    ensures forall i :: 0 <= i < |rows| ==>
              rows[i] == Annotated(Select(views, HasCountry)[i].viewerCountry, ViewerTag(Select(views, HasCountry)[i]))
  {
    var kept := Select(views, HasCountry);
    seq(|kept|, i requires 0 <= i < |kept| => Annotated(kept[i].viewerCountry, ViewerTag(kept[i])))
  }

  /** `[{"rank": i + 1, ...} for i, d in enumerate(data)]`. */
  function Ranked<K>(top: seq<Group<K>>, name: K -> string): (rows: seq<TopRow>)
    ensures |rows| == |top|
    ensures forall i :: 0 <= i < |top| ==> rows[i] == TopRow(i + 1, name(top[i].key), top[i].count, |top[i].ids|)
  {
    seq(|top|, i requires 0 <= i < |top| => TopRow(i + 1, name(top[i].key), top[i].count, |top[i].ids|))
  }

  /** The ten groups with the most views, ranked. */
  function TopOf<K(==)>(rows: seq<Annotated<K>>, name: K -> string): seq<TopRow> {
    Ranked(TopByCount(Aggregate(rows), 10), name)
  }

  /** The response rows of the mode `topType` selects; any token but "blog" and "user" is country. */
  function TopTable(views: seq<BlogView>, topType: string): (rows: seq<TopRow>)
    ensures |rows| <= 10
    ensures forall i :: 0 <= i < |rows| ==> rows[i].rank == i + 1
  {
    if topType == "blog" then TopOf(BlogAnnotate(views), BlogLabel)
    else if topType == "user" then TopOf(UserAnnotate(views), UserLabel)
    else TopOf(CountryAnnotate(views), OrUnknown)
  }

  /** At most ten rows ranked 1..n by non-increasing views, all groups shown when there are
      at most ten, and no group left out with more views than a row shown. */
  lemma TopOfRanking<K(!new)>(rows: seq<Annotated<K>>, name: K -> string)
    ensures |TopOf(rows, name)| <= 10
    ensures |Aggregate(rows)| <= 10 ==> |TopOf(rows, name)| == |Aggregate(rows)|
    ensures forall i :: 0 <= i < |TopOf(rows, name)| ==>
              TopOf(rows, name)[i].rank == i + 1 && TopOf(rows, name)[i].x == name(TopByCount(Aggregate(rows), 10)[i].key)
    ensures forall i, j :: 0 <= i < j < |TopOf(rows, name)| ==> TopOf(rows, name)[i].y >= TopOf(rows, name)[j].y
    ensures forall g, i :: g in Aggregate(rows) && g !in TopByCount(Aggregate(rows), 10) && 0 <= i < |TopOf(rows, name)| ==>
              g.count <= TopOf(rows, name)[i].y
  {
    TopByCountCorrect(Aggregate(rows), 10);
  }

  /** Each row shown carries the views of a distinct key of the rows, and its distinct
      count never exceeds them. */
  lemma TopOfCounts<K(!new)>(rows: seq<Annotated<K>>, name: K -> string)
    ensures DistinctKeys(TopByCount(Aggregate(rows), 10))
    ensures |TopOf(rows, name)| == |TopByCount(Aggregate(rows), 10)|
    ensures forall i :: 0 <= i < |TopOf(rows, name)| ==>
              TopOf(rows, name)[i].y == CountFor(rows, RowKey, TopByCount(Aggregate(rows), 10)[i].key)
              && TopOf(rows, name)[i].z <= TopOf(rows, name)[i].y
  {
    var gs := Aggregate(rows);
    var top := TopByCount(gs, 10);
    GroupByKeys(rows, RowKey, RowTag);
    GroupByCounts(rows, RowKey, RowTag);
    TopByCountCorrect(gs, 10);
    forall i | 0 <= i < |top|
      ensures top[i].count == CountFor(rows, RowKey, top[i].key) && |top[i].ids| <= top[i].count
    {
      assert top[i] in top;
      var p :| 0 <= p < |gs| && gs[p] == top[i];
      IdsWithinCount(rows, RowKey, RowTag, top[i].key);
    }
  }

  /** User mode counts only views with a viewer and groups them by username. */
  lemma UserModeDropsAnonymous(views: seq<BlogView>)
    ensures forall g :: g in Aggregate(UserAnnotate(views)) ==> g.key.Some?
    ensures TotalCount(Aggregate(UserAnnotate(views))) == |Select(views, HasViewer)|
    ensures forall v :: v in views && v.viewer.Some? ==> HasKey(Aggregate(UserAnnotate(views)), Some(v.viewer.value.username))
  {
    var kept := Select(views, HasViewer);
    var ann := UserAnnotate(views);
    forall i | 0 <= i < |ann| ensures RowKey(ann[i]).Some? {
      assert kept[i] in kept;
    }
    GroupKeysFromRows(ann, RowKey, RowTag, (k: Option<string>) => k.Some?);
    GroupByTotal(ann, RowKey, RowTag);
    GroupByKeys(ann, RowKey, RowTag);
    forall v | v in views && v.viewer.Some? ensures HasKey(Aggregate(ann), Some(v.viewer.value.username)) {
      assert v in kept;
      var i :| 0 <= i < |kept| && kept[i] == v;
      assert ann[i] in ann && RowKey(ann[i]) == Some(v.viewer.value.username);
    }
  }

  /** Country mode drops views without a country only; an empty country still forms a row,
      and that row reads "Unknown". */
  lemma CountryModeKeepsEmpty(views: seq<BlogView>)
    ensures forall g :: g in Aggregate(CountryAnnotate(views)) ==> g.key.Some?
    ensures TotalCount(Aggregate(CountryAnnotate(views))) == |Select(views, HasCountry)|
    ensures forall v :: v in views && v.viewerCountry.Some? ==> HasKey(Aggregate(CountryAnnotate(views)), v.viewerCountry)
    ensures OrUnknown(Some("")) == "Unknown"
  {
    var kept := Select(views, HasCountry);
    var ann := CountryAnnotate(views);
    forall i | 0 <= i < |ann| ensures RowKey(ann[i]).Some? {
      assert kept[i] in kept;
    }
    GroupKeysFromRows(ann, RowKey, RowTag, (k: Option<string>) => k.Some?);
    GroupByTotal(ann, RowKey, RowTag);
    GroupByKeys(ann, RowKey, RowTag);
    forall v | v in views && v.viewerCountry.Some? ensures HasKey(Aggregate(ann), v.viewerCountry) {
      assert v in kept;
      var i :| 0 <= i < |kept| && kept[i] == v;
      assert ann[i] in ann && RowKey(ann[i]) == v.viewerCountry;
    }
  }

  /** What TopAnalyticsAPI.get answers. */
  function TopResponse(db: Database, params: Params, dec: Decoders): Response<TopRow> {
    var topType := Get(params, "top", "blog");
    var c := CommonParams(params);
    if topType != "user" && topType != "country" && topType != "blog" then BadRequest(TopMessage)
    else if DatesInvalid(c) then BadRequest(DateMessage)
    else
      match ViewQuery(db, c, dec)
      case Err(e) => ServerError(e)
      case Ok(views) => Rows(TopTable(views, topType))
  }

  /** TopAnalyticsAPI.get. */
  method TopAnalytics(db: Database, params: Params, dec: Decoders) returns (resp: Response<TopRow>)
    requires WellFormed(db)
    ensures resp == TopResponse(db, params, dec)
  {
    var topType := Get(params, "top", "blog");
    var c := CommonParams(params);
    if topType != "user" && topType != "country" && topType != "blog" {
      return BadRequest(TopMessage);
    }
    if DatesInvalid(c) {
      return BadRequest(DateMessage);
    }
    ViewsWellStamped(db.views);
    var views := GetQuerysetWithFilters(db.views, ViewSchema, c.filters, c.logic, Bound(c.start), Bound(c.end), "created_at", dec);
    if views.Err? {
      return ServerError(views.error);
    }
    resp := Rows(TopTable(views.value, topType));
  }

  /** Validation answers before any query, in a fixed order, whatever the tables hold. */
  lemma TopValidatesFirst(db1: Database, db2: Database, params: Params, dec1: Decoders, dec2: Decoders)
    ensures var topType := Get(params, "top", "blog");
            && (topType != "user" && topType != "country" && topType != "blog" ==> TopResponse(db1, params, dec1) == BadRequest(TopMessage))
            && ((topType == "user" || topType == "country" || topType == "blog") && DatesInvalid(CommonParams(params)) ==>
                  TopResponse(db1, params, dec1) == BadRequest(DateMessage))
            && (TopResponse(db1, params, dec1).BadRequest? ==> TopResponse(db1, params, dec1) == TopResponse(db2, params, dec2))
  {
  }

  // ----- /analytics/performance/ -----

  /** `blogs.filter(author_id=user_id)` when `user_id` is given; text that is not an integer
      makes the store raise. */
  function AuthorFilter(blogs: seq<Blog>, userId: Option<string>): (r: Result<seq<Blog>, QueryError>)
    ensures (userId.None? || userId.value == "") ==> r == Ok(blogs)
    ensures userId.Some? && userId.value != "" && ParseInt(userId.value).None? ==> r == Err(InvalidNumber)
    ensures userId.Some? && userId.value != "" && ParseInt(userId.value).Some? ==>
              r.Ok? && forall b :: b in r.value <==> b in blogs && b.author.id == ParseInt(userId.value).value
  {
    if userId.None? || userId.value == "" then Ok(blogs)
    else
      match ParseInt(userId.value)
      case None => Err(InvalidNumber)
      case Some(n) => Ok(Select(blogs, (b: Blog) => b.author.id == n))
  }

  /** `values_list("id", flat=True)`, as the set an `__in` lookup tests. */
  function BlogIds(blogs: seq<Blog>): (ids: set<int>)
    ensures forall b :: b in blogs ==> b.id in ids
    ensures forall n :: n in ids ==> exists b :: b in blogs && b.id == n
  {
    set b | b in blogs :: b.id
  }

  /** `blog_views.filter(blog_id__in=blog_ids)`. */
  function ViewsOfBlogs(views: seq<BlogView>, blogs: seq<Blog>): (r: seq<BlogView>)
    ensures forall v :: v in r <==> v in views && v.blog.id in BlogIds(blogs)
  {
    Select(views, (v: BlogView) => v.blog.id in BlogIds(blogs))
  }

  /** `blogs.annotate(period=trunc_func("created_at"))`. */
  function BlogPeriods(blogs: seq<Blog>, g: Granularity): (rows: seq<Annotated<Date>>)
    requires forall b :: b in blogs ==> BlogWellFormed(b)
    ensures |rows| == |blogs|
    ensures forall i :: 0 <= i < |blogs| ==>
              InRange(blogs[i].createdAt.date) && rows[i] == Annotated(Truncate(g, blogs[i].createdAt.date), None)
  {
    BlogDates(blogs);
    seq(|blogs|, i requires 0 <= i < |blogs| && InRange(blogs[i].createdAt.date) =>
      Annotated(Truncate(g, blogs[i].createdAt.date), None))
  }

  /** `blog_views.annotate(period=trunc_func("viewed_at"))`. */
  function ViewPeriods(views: seq<BlogView>, g: Granularity): (rows: seq<Annotated<Date>>)
    requires forall v :: v in views ==> ViewWellFormed(v)
    ensures |rows| == |views|
    ensures forall i :: 0 <= i < |views| ==>
              InRange(views[i].viewedAt.date) && rows[i] == Annotated(Truncate(g, views[i].viewedAt.date), None)
  {
    ViewDates(views);
    seq(|views|, i requires 0 <= i < |views| && InRange(views[i].viewedAt.date) =>
      Annotated(Truncate(g, views[i].viewedAt.date), None))
  }

  const DateOrder: (Date, Date) -> bool := (a: Date, b: Date) => AtOrBefore(a, b)

  lemma DateOrderTotal()
    ensures TotalPreorder(DateOrder)
  {
    forall a: Date, b: Date ensures DateOrder(a, b) || DateOrder(b, a) {
      BeforeTotal(a, b);
    }
  }

  predicate Increasing(ps: seq<Date>) {
    forall i, j :: 0 <= i < j < |ps| ==> Before(ps[i], ps[j])
  }

  /** `sorted(set(a) | set(b))`. */
  function SortedUnion(a: seq<Date>, b: seq<Date>): (r: seq<Date>)
    ensures Increasing(r)
    ensures forall p :: p in r <==> p in a || p in b
  {
    var d := Dedup(a + b);
    var r := Sort(d, DateOrder);
    DateOrderTotal();
    SortSorted(d, DateOrder);
    PermutationDistinct(d, r);
    forall p ensures p in r <==> p in a || p in b {
      calc {
        p in r;
        p in multiset(r);
        p in multiset(d);
        p in d;
        p in a + b;
      }
    }
    assert forall i, j :: 0 <= i < j < |r| ==> DateOrder(r[i], r[j]) && r[i] != r[j];
    r
  }

  /** A strictly increasing sequence is determined by its elements, so the order the union is
      built in does not matter. */
  lemma {:induction false} IncreasingUnique(r1: seq<Date>, r2: seq<Date>)
    requires Increasing(r1) && Increasing(r2)
    requires forall p :: p in r1 <==> p in r2
    ensures r1 == r2
  {
    if r1 == [] || r2 == [] {
      HeadMember(r1);
      HeadMember(r2);
    } else {
      assert r1[0] in r2;
      assert r2[0] in r1;
      HeadIsLeast(r2, r1[0]);
      HeadIsLeast(r1, r2[0]);
      BeforeTotal(r1[0], r2[0]);
      assert r1[0] == r2[0];
      forall p ensures p in r1[1..] <==> p in r2[1..] {
        TailMember(r1, p);
        TailMember(r2, p);
      }
      IncreasingUnique(r1[1..], r2[1..]);
      assert r1 == [r1[0]] + r1[1..] && r2 == [r2[0]] + r2[1..];
    }
  }

  lemma HeadIsLeast(r: seq<Date>, p: Date)
    requires Increasing(r) && p in r
    ensures AtOrBefore(r[0], p)
  {
    var i :| 0 <= i < |r| && r[i] == p;
    if i > 0 {
      assert Before(r[0], r[i]);
    }
  }

  lemma HeadMember(r: seq<Date>)
    ensures r == [] || r[0] in r
  {
  }

  lemma TailMember(r: seq<Date>, p: Date)
    requires Increasing(r) && r != []
    ensures p in r[1..] <==> p in r && p != r[0]
  {
    if p in r[1..] {
      var i :| 0 <= i < |r[1..]| && r[1..][i] == p;
      assert r[i + 1] == p && Before(r[0], r[i + 1]);
    }
    if p in r && p != r[0] {
      var i :| 0 <= i < |r| && r[i] == p;
      assert i > 0 && r[1..][i - 1] == p;
    }
  }

  /** One performance row: the period, its label, its views and the growth from the row before. */
  datatype PerfRow = PerfRow(period: string, x: string, y: nat, z: Option<real>)

  /** Row `i` of the performance table: growth against the views of the period just before,
      none for the first period. */
  function PerfRowAt(periods: seq<Date>, blogData: map<Date, nat>, viewsData: map<Date, nat>, i: nat): (row: PerfRow)
    requires i < |periods| && InRange(periods[i])
    ensures row.period == IsoDate(periods[i]) && row.y == CountOr0(viewsData, periods[i])
    ensures row.x == IsoDate(periods[i]) + " - " + NatToString(CountOr0(blogData, periods[i])) + " blogs"
    ensures i == 0 <==> row.z.None?
    ensures i > 0 ==> row.z == Some(Growth(CountOr0(viewsData, periods[i]), CountOr0(viewsData, periods[i - 1])))
  {
    var p := periods[i];
    var views := CountOr0(viewsData, p);
    PerfRow(IsoDate(p), IsoDate(p) + " - " + NatToString(CountOr0(blogData, p)) + " blogs", views,
            if i == 0 then None else Some(Growth(views, CountOr0(viewsData, periods[i - 1]))))
  }

  /** The loop over `all_periods`, carrying the previous period's views. */
  method PerformanceRows(periods: seq<Date>, blogData: map<Date, nat>, viewsData: map<Date, nat>) returns (result: seq<PerfRow>)
    requires forall i :: 0 <= i < |periods| ==> InRange(periods[i])
    ensures |result| == |periods|
    ensures forall i :: 0 <= i < |periods| ==> result[i] == PerfRowAt(periods, blogData, viewsData, i)
  {
    result := [];
    var prevViews := 0;
    var i := 0;
    while i < |periods|
      invariant 0 <= i <= |periods|
      invariant |result| == i
      invariant forall j :: 0 <= j < i ==> result[j] == PerfRowAt(periods, blogData, viewsData, j)
      invariant i > 0 ==> prevViews == CountOr0(viewsData, periods[i - 1])
    {
      var period := periods[i];
      var blogsInPeriod := CountOr0(blogData, period);
      var viewsInPeriod := CountOr0(viewsData, period);
      var growth := if i == 0 then None else Some(Growth(viewsInPeriod, prevViews));
      var periodStr := IsoDate(period);
      result := result + [PerfRow(periodStr, periodStr + " - " + NatToString(blogsInPeriod) + " blogs", viewsInPeriod, growth)];
      prevViews := viewsInPeriod;
      i := i + 1;
    }
  }

  /** The periods of the performance table. */
  function PerfPeriods(blogs: seq<Blog>, views: seq<BlogView>, g: Granularity): (ps: seq<Date>)
    requires forall b :: b in blogs ==> BlogWellFormed(b)
    requires forall v :: v in views ==> ViewWellFormed(v)
    ensures Increasing(ps)
    ensures forall i :: 0 <= i < |ps| ==> InRange(ps[i])
  {
    var bp := BlogPeriods(blogs, g);
    var vp := ViewPeriods(views, g);
    GroupKeysFromRows(bp, RowKey, RowTag, InRange);
    GroupKeysFromRows(vp, RowKey, RowTag, InRange);
    var ps := SortedUnion(Keys(Aggregate(bp)), Keys(Aggregate(vp)));
    assert forall i :: 0 <= i < |ps| ==> ps[i] in ps;
    ps
  }

  /** The rows after the two queries: blogs, and the views of those blogs, counted per period. */
  function PerformanceTable(blogs: seq<Blog>, views: seq<BlogView>, g: Granularity): (rows: seq<PerfRow>)
    requires forall b :: b in blogs ==> BlogWellFormed(b)
    requires forall v :: v in views ==> ViewWellFormed(v)
    ensures |rows| == |PerfPeriods(blogs, ViewsOfBlogs(views, blogs), g)|
  {
    var counted := ViewsOfBlogs(views, blogs);
    var periods := PerfPeriods(blogs, counted, g);
    var blogData := CountMap(Aggregate(BlogPeriods(blogs, g)));
    var viewsData := CountMap(Aggregate(ViewPeriods(counted, g)));
    seq(|periods|, i requires 0 <= i < |periods| && InRange(periods[i]) => PerfRowAt(periods, blogData, viewsData, i))
  }

  /** What PerformanceAnalyticsAPI.get answers. */
  function PerformanceResponse(db: Database, params: Params, dec: Decoders): Response<PerfRow>
    requires WellFormed(db)
  {
    var compareType := Get(params, "compare", "month");
    var c := CommonParams(params);
    if compareType !in Granularities then BadRequest(CompareMessage)
    else if DatesInvalid(c) then BadRequest(DateMessage)
    else BlogsResponse(db, c, OptParam(params, "user_id"), TruncFor(compareType), dec)
  }

  /** The first half of PerformanceAnalyticsAPI.get after validation: the blog query and the
      author filter. */
  function BlogsResponse(db: Database, c: Common, userId: Option<string>, g: Granularity, dec: Decoders): Response<PerfRow>
    requires WellFormed(db)
  {
    match QueryRows(db.blogs, BlogSchema, c.filters, c.logic, Bound(c.start), Bound(c.end), "created_at", dec)
    case Err(e) => ServerError(e)
    case Ok(found) =>
      match AuthorFilter(found, userId)
      case Err(e) => ServerError(e)
      case Ok(blogs) =>
        QueryRowsSubset(db.blogs, BlogSchema, c.filters, c.logic, Bound(c.start), Bound(c.end), "created_at", dec);
        assert forall b :: b in found ==> b in multiset(found);
        ViewsResponse(db, c, blogs, g, dec)
  }

  /** The second half of PerformanceAnalyticsAPI.get: the view query, then the table. */
  function ViewsResponse(db: Database, c: Common, blogs: seq<Blog>, g: Granularity, dec: Decoders): Response<PerfRow>
    requires WellFormed(db) && forall b :: b in blogs ==> b in db.blogs
  {
    match ViewQuery(db, c, dec)
    case Err(e) => ServerError(e)
    case Ok(views) =>
      ViewQueryFromStore(db, c, dec);
      Rows(PerformanceTable(blogs, views, g))
  }

  /** PerformanceAnalyticsAPI.get. */
  method PerformanceAnalytics(db: Database, params: Params, dec: Decoders) returns (resp: Response<PerfRow>)
    requires WellFormed(db)
    ensures resp == PerformanceResponse(db, params, dec)
  {
    var compareType := Get(params, "compare", "month");
    var c := CommonParams(params);
    if compareType !in Granularities {
      return BadRequest(CompareMessage);
    }
    if DatesInvalid(c) {
      return BadRequest(DateMessage);
    }
    resp := PerformanceQueries(db, params, TruncFor(compareType), dec);
  }

  /** The two queries of PerformanceAnalyticsAPI.get and the table built from them. */
  method PerformanceQueries(db: Database, params: Params, g: Granularity, dec: Decoders) returns (resp: Response<PerfRow>)
    requires WellFormed(db)
    ensures resp == BlogsResponse(db, CommonParams(params), OptParam(params, "user_id"), g, dec)
  {
    var c := CommonParams(params);
    var userId := OptParam(params, "user_id");
    BlogsWellStamped(db.blogs);
    var found := GetQuerysetWithFilters(db.blogs, BlogSchema, c.filters, c.logic, Bound(c.start), Bound(c.end), "created_at", dec);
    if found.Err? {
      return ServerError(found.error);
    }
    var blogs := AuthorFilter(found.value, userId);
    if blogs.Err? {
      return ServerError(blogs.error);
    }
    QueryRowsSubset(db.blogs, BlogSchema, c.filters, c.logic, Bound(c.start), Bound(c.end), "created_at", dec);
    assert forall b :: b in found.value ==> b in multiset(found.value);
    resp := ViewsQuery(db, c, blogs.value, g, dec);
  }

  /** The view query of PerformanceAnalyticsAPI.get and the table built from it. */
  method ViewsQuery(db: Database, c: Common, blogs: seq<Blog>, g: Granularity, dec: Decoders) returns (resp: Response<PerfRow>)
    requires WellFormed(db) && forall b :: b in blogs ==> b in db.blogs
    requires c.start.OnDate? ==> InRange(c.start.date)
    requires c.end.OnDate? ==> InRange(c.end.date)
    ensures resp == ViewsResponse(db, c, blogs, g, dec)
  {
    ViewsWellStamped(db.views);
    var views := GetQuerysetWithFilters(db.views, ViewSchema, c.filters, c.logic, Bound(c.start), Bound(c.end), "created_at", dec);
    if views.Err? {
      return ServerError(views.error);
    }
    ViewQueryFromStore(db, c, dec);
    var rows := PerformanceOf(blogs, views.value, g);
    resp := Rows(rows);
  }

  /** The aggregation half of PerformanceAnalyticsAPI.get, after both queries. */
  method PerformanceOf(blogs: seq<Blog>, views: seq<BlogView>, g: Granularity) returns (rows: seq<PerfRow>)
    requires forall b :: b in blogs ==> BlogWellFormed(b)
    requires forall v :: v in views ==> ViewWellFormed(v)
    ensures rows == PerformanceTable(blogs, views, g)
  {
    var counted := ViewsOfBlogs(views, blogs);
    var blogData := CountMap(Aggregate(BlogPeriods(blogs, g)));
    var viewsData := CountMap(Aggregate(ViewPeriods(counted, g)));
    var periods := PerfPeriods(blogs, counted, g);
    rows := PerformanceRows(periods, blogData, viewsData);
  }

  /** A key some row carries is counted at least once. */
  lemma {:induction false} PresentKeyCounted<K>(rows: seq<Annotated<K>>, i: nat)
    requires i < |rows|
    ensures CountFor(rows, RowKey, rows[i].key) >= 1
  {
    if i < |rows| - 1 {
      PresentKeyCounted(rows[..|rows| - 1], i);
    }
  }

  /** A key counted at least once is carried by some row. */
  lemma {:induction false} CountedKeyPresent<K>(rows: seq<Annotated<K>>, k: K)
    requires CountFor(rows, RowKey, k) >= 1
    ensures exists i :: 0 <= i < |rows| && rows[i].key == k
  {
    var init := rows[..|rows| - 1];
    if rows[|rows| - 1].key != k {
      CountedKeyPresent(init, k);
      var i :| 0 <= i < |init| && init[i].key == k;
      assert rows[i].key == k;
    }
  }

  /** The periods of the table are, in increasing order, exactly those in which one of the
      blogs was created or one of the counted views happened. */
  lemma PerfPeriodsExact(blogs: seq<Blog>, views: seq<BlogView>, g: Granularity, p: Date)
    requires forall b :: b in blogs ==> BlogWellFormed(b)
    requires forall v :: v in views ==> ViewWellFormed(v)
    ensures p in PerfPeriods(blogs, views, g) <==>
              CountFor(BlogPeriods(blogs, g), RowKey, p) >= 1 || CountFor(ViewPeriods(views, g), RowKey, p) >= 1
    ensures p in PerfPeriods(blogs, views, g) <==>
              (exists i :: 0 <= i < |blogs| && InRange(blogs[i].createdAt.date) && Truncate(g, blogs[i].createdAt.date) == p) ||
              (exists i :: 0 <= i < |views| && InRange(views[i].viewedAt.date) && Truncate(g, views[i].viewedAt.date) == p)
  {
    var bp := BlogPeriods(blogs, g);
    var vp := ViewPeriods(views, g);
    PeriodKeys(bp, p);
    PeriodKeys(vp, p);
    if CountFor(bp, RowKey, p) >= 1 {
      CountedKeyPresent(bp, p);
    }
    if CountFor(vp, RowKey, p) >= 1 {
      CountedKeyPresent(vp, p);
    }
    if exists i :: 0 <= i < |blogs| && InRange(blogs[i].createdAt.date) && Truncate(g, blogs[i].createdAt.date) == p {
      var i :| 0 <= i < |blogs| && InRange(blogs[i].createdAt.date) && Truncate(g, blogs[i].createdAt.date) == p;
      PresentKeyCounted(bp, i);
    }
    if exists i :: 0 <= i < |views| && InRange(views[i].viewedAt.date) && Truncate(g, views[i].viewedAt.date) == p {
      var i :| 0 <= i < |views| && InRange(views[i].viewedAt.date) && Truncate(g, views[i].viewedAt.date) == p;
      PresentKeyCounted(vp, i);
    }
  }

  /** The keys of an aggregate are the keys counted at least once. */
  lemma PeriodKeys(rows: seq<Annotated<Date>>, p: Date)
    ensures p in Keys(Aggregate(rows)) <==> CountFor(rows, RowKey, p) >= 1
  {
    var gs := Aggregate(rows);
    GroupByKeys(rows, RowKey, RowTag);
    GroupByCounts(rows, RowKey, RowTag);
    if CountFor(rows, RowKey, p) >= 1 {
      CountedKeyPresent(rows, p);
      var i :| 0 <= i < |rows| && rows[i].key == p;
      assert rows[i] in rows;
    }
    if p in Keys(gs) {
      var j :| 0 <= j < |gs| && gs[j].key == p;
    }
  }

  /** Each row of the performance table: its period in increasing order, the number of blogs
      created and of counted views in that period, and the growth against the row before. */
  lemma PerformanceTableCorrect(blogs: seq<Blog>, views: seq<BlogView>, g: Granularity)
    requires forall b :: b in blogs ==> BlogWellFormed(b)
    requires forall v :: v in views ==> ViewWellFormed(v)
    ensures var rows := PerformanceTable(blogs, views, g);
            var counted := ViewsOfBlogs(views, blogs);
            var ps := PerfPeriods(blogs, counted, g);
            && |rows| == |ps|
            && (forall i :: 0 <= i < |ps| ==>
                  && rows[i].period == IsoDate(ps[i])
                  && rows[i].y == CountFor(ViewPeriods(counted, g), RowKey, ps[i])
                  && rows[i].x == IsoDate(ps[i]) + " - " + NatToString(CountFor(BlogPeriods(blogs, g), RowKey, ps[i])) + " blogs"
                  && CountFor(BlogPeriods(blogs, g), RowKey, ps[i]) + rows[i].y >= 1)
            && (|rows| > 0 ==> rows[0].z.None?)
            && (forall i :: 0 < i < |rows| ==> rows[i].z == Some(Growth(rows[i].y, rows[i - 1].y)))
  {
    var rows := PerformanceTable(blogs, views, g);
    var counted := ViewsOfBlogs(views, blogs);
    var ps := PerfPeriods(blogs, counted, g);
    var bp := BlogPeriods(blogs, g);
    var vp := ViewPeriods(counted, g);
    forall i | 0 <= i < |ps|
      ensures rows[i].y == CountFor(vp, RowKey, ps[i])
      ensures rows[i].x == IsoDate(ps[i]) + " - " + NatToString(CountFor(bp, RowKey, ps[i])) + " blogs"
      ensures CountFor(bp, RowKey, ps[i]) + rows[i].y >= 1
    {
      CountMapCounts(bp, ps[i]);
      CountMapCounts(vp, ps[i]);
      PerfPeriodsExact(blogs, counted, g, ps[i]);
    }
  }

  /** The order the two period sets are joined in does not matter. */
  lemma SortedUnionCommutes(a: seq<Date>, b: seq<Date>)
    ensures SortedUnion(a, b) == SortedUnion(b, a)
  {
    IncreasingUnique(SortedUnion(a, b), SortedUnion(b, a));
  }

  /** The queries answer with rows or a server error, never a 400. */
  lemma BlogsResponseNotBadRequest(db: Database, c: Common, userId: Option<string>, g: Granularity, dec: Decoders)
    requires WellFormed(db)
    ensures !BlogsResponse(db, c, userId, g, dec).BadRequest?
  {
    var found := QueryRows(db.blogs, BlogSchema, c.filters, c.logic, Bound(c.start), Bound(c.end), "created_at", dec);
    if found.Ok? && AuthorFilter(found.value, userId).Ok? {
      var blogs := AuthorFilter(found.value, userId).value;
      QueryRowsSubset(db.blogs, BlogSchema, c.filters, c.logic, Bound(c.start), Bound(c.end), "created_at", dec);
      assert forall b :: b in found.value ==> b in multiset(found.value);
      ViewsResponseNotBadRequest(db, c, blogs, g, dec);
    }
  }

  lemma ViewsResponseNotBadRequest(db: Database, c: Common, blogs: seq<Blog>, g: Granularity, dec: Decoders)
    requires WellFormed(db) && forall b :: b in blogs ==> b in db.blogs
    ensures !ViewsResponse(db, c, blogs, g, dec).BadRequest?
  {
  }

  /** Validation answers before any query, in a fixed order, whatever the tables hold. */
  lemma PerformanceValidatesFirst(db1: Database, db2: Database, params: Params, dec1: Decoders, dec2: Decoders)
    requires WellFormed(db1) && WellFormed(db2)
    ensures var compareType := Get(params, "compare", "month");
            && (compareType !in Granularities ==> PerformanceResponse(db1, params, dec1) == BadRequest(CompareMessage))
            && (compareType in Granularities && DatesInvalid(CommonParams(params)) ==>
                  PerformanceResponse(db1, params, dec1) == BadRequest(DateMessage))
            && (PerformanceResponse(db1, params, dec1).BadRequest? ==> PerformanceResponse(db1, params, dec1) == PerformanceResponse(db2, params, dec2))
  {
    var compareType := Get(params, "compare", "month");
    BlogsResponseNotBadRequest(db1, CommonParams(params), OptParam(params, "user_id"), TruncFor(compareType), dec1);
  }

  /** Any date bound makes the view half fail. */
  lemma DatedViewsResponseFails(db: Database, c: Common, blogs: seq<Blog>, g: Granularity, dec: Decoders)
    requires WellFormed(db) && forall b :: b in blogs ==> b in db.blogs
    requires c.start.OnDate? || c.end.OnDate?
    ensures ViewsResponse(db, c, blogs, g, dec).ServerError?
  {
    DatedViewQueryFails(db, c, dec);
  }

  /** A valid request with a date bound is answered with a server error: the blog query or
      the view query fails. */
  lemma DatedPerformanceFails(db: Database, params: Params, dec: Decoders)
    requires WellFormed(db)
    requires Get(params, "compare", "month") in Granularities && !DatesInvalid(CommonParams(params))
    requires CommonParams(params).start.OnDate? || CommonParams(params).end.OnDate?
    ensures PerformanceResponse(db, params, dec).ServerError?
  {
    var c := CommonParams(params);
    var userId := OptParam(params, "user_id");
    var found := QueryRows(db.blogs, BlogSchema, c.filters, c.logic, Bound(c.start), Bound(c.end), "created_at", dec);
    if found.Ok? && AuthorFilter(found.value, userId).Ok? {
      var blogs := AuthorFilter(found.value, userId).value;
      QueryRowsSubset(db.blogs, BlogSchema, c.filters, c.logic, Bound(c.start), Bound(c.end), "created_at", dec);
      assert forall b :: b in found.value ==> b in multiset(found.value);
      DatedViewsResponseFails(db, c, blogs, TruncFor(Get(params, "compare", "month")), dec);
    }
  }

}
