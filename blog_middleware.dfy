/**
 * The middleware of the blog routes: request validation over the merged
 * body, params and query; the existence checks by id and by slug; the slug
 * uniqueness check; and the blog API's error handler. The blog table is the
 * map of the blog store, and a failing lookup is a parameter.
 */
module BlogMiddleware {
  import opened Wrappers
  import opened JsValues
  import opened ZodChecks
  import opened Http
  import opened BlogModel
  import opened BlogStores

  /**
   * `validate(schema)`: parses `{...body, ...params, ...query}`; a ZodError
   * answers 400 with one entry per issue; any other error is passed on.
   */
  function Validate(
    schema: JsObject -> Result<JsObject, seq<Issue>>, body: JsObject, params: JsObject, query: JsObject)
    : (r: Step<JsObject>)
    ensures schema(SpreadMerge(body, params, query)).Success? ==>
              r == Continue(schema(SpreadMerge(body, params, query)).value)
    ensures schema(SpreadMerge(body, params, query)).Failure? ==>
              r == Respond(ValidationFailed(IssueEntries(schema(SpreadMerge(body, params, query)).error)))
  {
    match schema(SpreadMerge(body, params, query))
    case Success(data) => Continue(data)
    case Failure(issues) => Respond(ValidationFailed(IssueEntries(issues)))
  }

  /** A lookup by a unique key: the record, or the message of the store's failure. */
  function FindUnique(blogs: map<BlogId, Blog>, id: BlogId, fault: Option<string>): (r: Result<Option<Blog>, string>)
    ensures fault.Some? ==> r == Failure(fault.value)
    ensures fault.None? ==> r == Success(if id in blogs then Some(blogs[id]) else None)
  {
    if fault.Some? then Failure(fault.value) else if id in blogs then Success(Some(blogs[id])) else Success(None)
  }

  /**
   * `blogExists`: a missing id answers 400, an unknown one 404, a failing
   * lookup 500 with its message; otherwise the blog is attached.
   */
  function BlogExists(id: Option<string>, blogs: map<BlogId, Blog>, fault: Option<string>): (r: Step<Blog>)
    ensures (id.None? || id.value == "") ==> r == Respond(Failed(400, "Blog ID is required"))
    ensures id.Some? && id.value != "" && fault.Some? ==>
              r == Respond(FailedWith(500, "Failed to check blog existence", Str(fault.value)))
    ensures id.Some? && id.value != "" && fault.None? && id.value !in blogs ==>
              r == Respond(Failed(404, "Blog with ID '" + id.value + "' not found"))
    ensures r.Continue? <==> id.Some? && id.value != "" && fault.None? && id.value in blogs
    ensures r.Continue? ==> r.value == blogs[id.value]
  {
    if id.None? || id.value == "" then Respond(Failed(400, "Blog ID is required"))
    else
      match FindUnique(blogs, id.value, fault)
      case Failure(msg) => Respond(FailedWith(500, "Failed to check blog existence", Str(msg)))
      case Success(None) => Respond(Failed(404, "Blog with ID '" + id.value + "' not found"))
      case Success(Some(b)) => Continue(b)
  }

  /** The database's unique index on the slug. */
  predicate SlugsUnique(blogs: map<BlogId, Blog>) {
    forall a, b :: a in blogs && b in blogs && blogs[a].slug == blogs[b].slug ==> a == b
  }

  predicate HasSlug(blogs: map<BlogId, Blog>, id: BlogId, slug: string) {
    id in blogs && blogs[id].slug == slug
  }

  /** `findUnique({ where: { slug } })`. */
  function FindBySlug(blogs: map<BlogId, Blog>, slug: string): (r: Option<Blog>)
    requires KeyedById(blogs) && SlugsUnique(blogs)
    ensures r.Some? <==> exists id :: HasSlug(blogs, id, slug)
    ensures r.Some? ==> HasSlug(blogs, r.value.id, slug) && blogs[r.value.id] == r.value
  {
    if exists id | id in blogs :: blogs[id].slug == slug then
      var id :| id in blogs && blogs[id].slug == slug;
      assert HasSlug(blogs, id, slug);
      Some(blogs[id])
    else
      assert forall id :: !HasSlug(blogs, id, slug);
      None
  }

  /** `slugExists`: the same shape as `blogExists`, by slug. */
  function SlugExists(slug: Option<string>, blogs: map<BlogId, Blog>, fault: Option<string>): (r: Step<Blog>)
    requires KeyedById(blogs) && SlugsUnique(blogs)
    ensures (slug.None? || slug.value == "") ==> r == Respond(Failed(400, "Blog slug is required"))
    ensures slug.Some? && slug.value != "" && fault.Some? ==>
              r == Respond(FailedWith(500, "Failed to check slug existence", Str(fault.value)))
    ensures slug.Some? && slug.value != "" && fault.None? && !(exists id :: HasSlug(blogs, id, slug.value)) ==>
              r == Respond(Failed(404, "Blog with slug '" + slug.value + "' not found"))
    ensures r.Continue? <==> slug.Some? && slug.value != "" && fault.None? && exists id :: HasSlug(blogs, id, slug.value)
    ensures r.Continue? ==> r.value.slug == slug.value && r.value.id in blogs && blogs[r.value.id] == r.value
  {
    if slug.None? || slug.value == "" then Respond(Failed(400, "Blog slug is required"))
    else if fault.Some? then Respond(FailedWith(500, "Failed to check slug existence", Str(fault.value)))
    else
      match FindBySlug(blogs, slug.value)
      case None => Respond(Failed(404, "Blog with slug '" + slug.value + "' not found"))
      case Some(b) => Continue(b)
  }

  /**
   * `slugUnique`: no slug in the body passes; a slug held by a blog other
   * than the one being updated answers 400; a failing lookup answers 500.
   */
  function SlugUnique(slug: Option<string>, id: Option<string>, blogs: map<BlogId, Blog>, fault: Option<string>)
    : (r: Step<()>)
    requires KeyedById(blogs) && SlugsUnique(blogs)
    ensures (slug.None? || slug.value == "") ==> r == Continue(())
    ensures slug.Some? && slug.value != "" && fault.Some? ==>
              r == Respond(FailedWith(500, "Failed to check slug uniqueness", Str(fault.value)))
    ensures r.Respond? && fault.None? ==> r.reply == Failed(400, "Blog with slug '" + slug.value + "' already exists")
  {
    if slug.None? || slug.value == "" then Continue(())
    else if fault.Some? then Respond(FailedWith(500, "Failed to check slug uniqueness", Str(fault.value)))
    else
      match FindBySlug(blogs, slug.value)
      case Some(existing) =>
        if id.None? || existing.id != id.value then
          Respond(Failed(400, "Blog with slug '" + slug.value + "' already exists"))
        else Continue(())
      case None => Continue(())
  }

  /**
   * With a working store, `slugUnique` rejects a slug exactly when another
   * blog holds it, where on create (no id) every holder is another blog.
   */
  lemma SlugUniqueDecision(slug: Option<string>, id: Option<string>, blogs: map<BlogId, Blog>)
    requires KeyedById(blogs) && SlugsUnique(blogs)
    ensures (slug.None? || slug.value == "") ==> SlugUnique(slug, id, blogs, None) == Continue(())
    ensures slug.Some? && slug.value != "" ==>
              (SlugUnique(slug, id, blogs, None).Respond? <==>
               exists other :: HasSlug(blogs, other, slug.value) && Some(other) != id)
    ensures slug.Some? && slug.value != "" && id.Some? && HasSlug(blogs, id.value, slug.value) ==>
              SlugUnique(slug, id, blogs, None) == Continue(())
  {
    if slug.Some? && slug.value != "" {
      var r := FindBySlug(blogs, slug.value);
      if r.Some? {
        assert HasSlug(blogs, r.value.id, slug.value);
      }
    }
  }

  /** `[{ field: 'unknown', message: 'Validation failed' }]`. */
  function UnknownField(): seq<JsValue> {
    [Obj(map["field" := Str("unknown"), "message" := Str("Validation failed")])]
  }

  /**
   * The blog API's `errorHandler`: a ZodError answers 400 with its issues (or
   * one 'unknown' entry when it has no issue array), Prisma's P2002 400, P2025
   * 404, anything else 500 with the message only in development.
   */
  function BlogErrorHandler(e: Thrown, development: bool): (r: Reply)
    ensures e.name == "ZodError" ==> r.status == 400
    ensures e.name == "ZodError" && e.issues.None? ==> r == ValidationFailed(UnknownField())
    ensures e.name == "ZodError" && e.issues.Some? ==> r == ValidationFailed(IssueEntries(e.issues.value))
    ensures e.name != "ZodError" && e.code == Some("P2002") ==>
              r == Failed(400, "A blog with this information already exists")
    ensures e.name != "ZodError" && e.code == Some("P2025") ==> r == Failed(404, "Blog not found")
    ensures e.name != "ZodError" && e.code != Some("P2002") && e.code != Some("P2025") ==>
              r == FailedWith(500, "Internal server error", Str(if development then e.message else "Something went wrong"))
  {
    if e.name == "ZodError" then
      ValidationFailed(if e.issues.Some? then IssueEntries(e.issues.value) else UnknownField())
    else if e.code == Some("P2002") then Failed(400, "A blog with this information already exists")
    else if e.code == Some("P2025") then Failed(404, "Blog not found")
    else FailedWith(500, "Internal server error", Str(if development then e.message else "Something went wrong"))
  }

  /** The blog error handler answers only 400, 404 or 500. */
  lemma BlogErrorStatuses(e: Thrown, development: bool)
    ensures BlogErrorHandler(e, development).status in {400, 404, 500}
  {
  }
}
