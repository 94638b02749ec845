/** The record store as seen by the query code: a table is a sequence of records, a field path
    resolves through a whitelist to a typed value, and filtering keeps the records a predicate
    accepts, in order. */
module Store {
  import opened Wrappers
  import opened Calendar
  import opened Models

  /** The value a field path yields on one record (NULL, an integer or a text column). */
  datatype FieldValue = FNull | FInt(i: int) | FStr(s: string)

  /** How one model's field paths resolve: `fields` are the paths a filter clause may name,
      `dateFields` the DateTimeField paths a date range may name. */
  datatype Schema<!R> = Schema(
    fields: set<string>,
    value: (R, string) -> FieldValue,
    dateFields: set<string>,
    stamp: (R, string) -> Timestamp)

  function OptionalText(o: Option<string>): FieldValue {
    if o.Some? then FStr(o.value) else FNull
  }

  const BlogFields: set<string> :=
    {"id", "pk", "title", "content", "country", "author", "author_id", "author__id", "author__username"}

  function BlogValue(b: Blog, path: string): FieldValue {
    if path == "id" || path == "pk" then FInt(b.id)
    else if path == "title" then FStr(b.title)
    else if path == "content" then FStr(b.content)
    else if path == "country" then OptionalText(b.country)
    else if path == "author" || path == "author_id" || path == "author__id" then FInt(b.author.id)
    else if path == "author__username" then FStr(b.author.username)
    else FNull
  }

  function BlogStamp(b: Blog, path: string): Timestamp {
    if path == "updated_at" then b.updatedAt else b.createdAt
  }

  const BlogSchema: Schema<Blog> := Schema(BlogFields, BlogValue, {"created_at", "updated_at"}, BlogStamp)

  const ViewOwnFields: set<string> :=
    {"id", "pk", "blog", "blog_id", "viewer", "viewer_id", "viewer__id", "viewer__username",
     "viewer_country", "ip_address"}

  /** A view's own fields, and every blog field behind the `blog__` prefix. */
  const ViewFields: set<string> := ViewOwnFields + set p | p in BlogFields :: "blog__" + p

  function ViewValue(v: BlogView, path: string): FieldValue {
    if path == "id" || path == "pk" then FInt(v.id)
    else if path == "blog" || path == "blog_id" then FInt(v.blog.id)
    else if path == "viewer" || path == "viewer_id" || path == "viewer__id" then
      (if v.viewer.Some? then FInt(v.viewer.value.id) else FNull)
    else if path == "viewer__username" then
      (if v.viewer.Some? then FStr(v.viewer.value.username) else FNull)
    else if path == "viewer_country" then OptionalText(v.viewerCountry)
    else if path == "ip_address" then OptionalText(v.ipAddress)
    else if |path| > 6 && path[..6] == "blog__" then BlogValue(v.blog, path[6..])
    else FNull
  }

  function ViewStamp(v: BlogView, path: string): Timestamp {
    if path == "blog__created_at" then v.blog.createdAt
    else if path == "blog__updated_at" then v.blog.updatedAt
    else v.viewedAt
  }

  const ViewSchema: Schema<BlogView> :=
    Schema(ViewFields, ViewValue, {"viewed_at", "blog__created_at", "blog__updated_at"}, ViewStamp)

  /** A blog field reached through a view yields the field of the view's blog. */
  lemma ViewBlogField(v: BlogView, p: string)
    requires p in BlogFields
    ensures "blog__" + p in ViewFields
    ensures ViewValue(v, "blog__" + p) == BlogValue(v.blog, p)
  {
    var path := "blog__" + p;
    assert path[..6] == "blog__" && path[6..] == p;
  }

  /** Every date field of every row is a valid timestamp. */
  ghost predicate WellStamped<R>(rows: seq<R>, schema: Schema<R>) {
    forall r, f :: r in rows && f in schema.dateFields ==> ValidTimestamp(schema.stamp(r, f))
  }

  lemma BlogsWellStamped(blogs: seq<Blog>)
    requires forall b :: b in blogs ==> BlogWellFormed(b)
    ensures WellStamped(blogs, BlogSchema)
  {
  }

  lemma ViewsWellStamped(views: seq<BlogView>)
    requires forall v :: v in views ==> ViewWellFormed(v)
    ensures WellStamped(views, ViewSchema)
  {
  }

  /** `queryset.filter(...)`: the rows `keep` accepts, in their original order. */
  function Select<R(!new)>(rows: seq<R>, keep: R -> bool): (r: seq<R>)
    ensures |r| <= |rows|
    ensures forall x :: x in r <==> x in rows && keep(x)
    ensures multiset(r) <= multiset(rows)
  {
    if rows == [] then []
    else
      var rest := Select(rows[..|rows| - 1], keep);
      var last := rows[|rows| - 1];
      assert rows == rows[..|rows| - 1] + [last];
      if keep(last) then rest + [last] else rest
  }

  /** Filtering depends only on what the predicate says about the rows present. */
  lemma {:induction false} SelectExtensional<R(!new)>(rows: seq<R>, p: R -> bool, q: R -> bool)
    requires forall x :: x in rows ==> p(x) == q(x)
    ensures Select(rows, p) == Select(rows, q)
  {
    if rows != [] {
      assert forall x :: x in rows[..|rows| - 1] ==> x in rows;
      SelectExtensional(rows[..|rows| - 1], p, q);
    }
  }

  /** Two successive filters are one filter by the conjunction. */
  lemma {:induction false} SelectSelect<R(!new)>(rows: seq<R>, p: R -> bool, q: R -> bool)
    ensures Select(Select(rows, p), q) == Select(rows, x => p(x) && q(x))
  {
    if rows != [] {
      var init := rows[..|rows| - 1];
      SelectSelect(init, p, q);
      var last := rows[|rows| - 1];
      if p(last) {
        assert Select(rows, p) == Select(init, p) + [last];
        assert Select(rows, p)[..|Select(rows, p)| - 1] == Select(init, p);
      }
    }
  }

  /** Filtering keeps each accepted record as often as it occurs, and no rejected one. */
  lemma {:induction false} SelectCount<R(!new)>(rows: seq<R>, p: R -> bool, x: R)
    ensures multiset(Select(rows, p))[x] == if p(x) then multiset(rows)[x] else 0
  {
    if rows != [] {
      var init := rows[..|rows| - 1];
      SelectCount(init, p, x);
      assert rows == init + [rows[|rows| - 1]];
    }
  }

  /** Filtering keeps every accepted record as often as it occurs, and no rejected one. */
  lemma SelectCounts<R(!new)>(rows: seq<R>, p: R -> bool)
    ensures forall x :: multiset(Select(rows, p))[x] == if p(x) then multiset(rows)[x] else 0
  {
    forall x ensures multiset(Select(rows, p))[x] == if p(x) then multiset(rows)[x] else 0 {
      SelectCount(rows, p, x);
    }
  }

  /** A weaker predicate keeps at least the rows a stronger one keeps, with multiplicity. */
  lemma {:induction false} SelectMonotone<R(!new)>(rows: seq<R>, p: R -> bool, q: R -> bool)
    requires forall x :: x in rows && p(x) ==> q(x)
    ensures multiset(Select(rows, p)) <= multiset(Select(rows, q))
    ensures |Select(rows, p)| <= |Select(rows, q)|
  {
    if rows != [] {
      var init := rows[..|rows| - 1];
      assert forall x :: x in init ==> x in rows;
      SelectMonotone(init, p, q);
    }
  }

  /** A predicate that accepts everything keeps the table as it is. */
  lemma {:induction false} SelectAll<R(!new)>(rows: seq<R>, p: R -> bool)
    requires forall x :: x in rows ==> p(x)
    ensures Select(rows, p) == rows
  {
    if rows != [] {
      var init := rows[..|rows| - 1];
      assert forall x :: x in init ==> x in rows;
      SelectAll(init, p);
      assert rows == init + [rows[|rows| - 1]];
    }
  }
}
