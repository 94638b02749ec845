/** The two stored entities, Blog and BlogView, with the field shapes of the schema.
    Foreign keys are resolved: a view carries the blog it refers to, and the user records
    it refers to, so every view's blog reference resolves by construction. */
module Models {
  import opened Wrappers
  import opened Calendar

  datatype User = User(id: int, username: string)

  datatype Blog = Blog(
    id: int,
    title: string,
    content: string,
    author: User,
    country: Option<string>,
    createdAt: Timestamp,
    updatedAt: Timestamp)

  /** `viewer` is nullable (anonymous views, or a deleted user), and so is `viewer_country`. */
  datatype BlogView = BlogView(
    id: int,
    blog: Blog,
    viewer: Option<User>,
    viewerCountry: Option<string>,
    viewedAt: Timestamp,
    ipAddress: Option<string>)

  /** Every stored timestamp is a datetime Python can hold. */
  predicate BlogWellFormed(b: Blog) {
    ValidTimestamp(b.createdAt) && ValidTimestamp(b.updatedAt)
  }

  predicate ViewWellFormed(v: BlogView) {
    BlogWellFormed(v.blog) && ValidTimestamp(v.viewedAt)
  }

  /** The dates of well-formed views, position by position. */
  lemma ViewDates(views: seq<BlogView>)
    requires forall v :: v in views ==> ViewWellFormed(v)
    ensures forall i :: 0 <= i < |views| ==> InRange(views[i].viewedAt.date) && InRange(views[i].blog.createdAt.date)
  {
    assert forall i :: 0 <= i < |views| ==> views[i] in views;
    assert forall i :: 0 <= i < |views| ==> ViewWellFormed(views[i]);
    assert forall i :: 0 <= i < |views| ==> ValidTimestamp(views[i].viewedAt) && BlogWellFormed(views[i].blog);
  }

  /** The creation dates of well-formed blogs, position by position. */
  lemma BlogDates(blogs: seq<Blog>)
    requires forall b :: b in blogs ==> BlogWellFormed(b)
    ensures forall i :: 0 <= i < |blogs| ==> InRange(blogs[i].createdAt.date)
  {
    assert forall i :: 0 <= i < |blogs| ==> blogs[i] in blogs;
    assert forall i :: 0 <= i < |blogs| ==> BlogWellFormed(blogs[i]);
  }
}
