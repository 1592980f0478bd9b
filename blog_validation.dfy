/**
 * The Zod schemas of the blog API: the status enum, the create schema, the
 * update schema (every create field made optional), the schedule schema with
 * its one-minute allowance, and the status route parameter.
 */
module BlogValidation {
  import opened Wrappers
  import opened JsValues
  import opened ZodChecks
  import opened BlogModel

  /** The values of `blogStatusSchema`, in the order the enum lists them. */
  const BLOG_STATUSES: seq<string> := ["DRAFT", "PUBLISHED", "SCHEDULED", "ARCHIVED"]

  function StatusName(st: BlogStatus): string {
    match st
    case DRAFT => "DRAFT"
    case PUBLISHED => "PUBLISHED"
    case SCHEDULED => "SCHEDULED"
    case ARCHIVED => "ARCHIVED"
  }

  /** The status a string names, when it is one of the enum's values. */
  function ParseStatus(s: string): (r: Option<BlogStatus>)
    ensures r.Some? <==> s in BLOG_STATUSES
    ensures r.Some? ==> StatusName(r.value) == s
  {
    if s == "DRAFT" then Some(DRAFT)
    else if s == "PUBLISHED" then Some(PUBLISHED)
    else if s == "SCHEDULED" then Some(SCHEDULED)
    else if s == "ARCHIVED" then Some(ARCHIVED)
    else None
  }

  /** Every status is accepted under its own name, and only under it. */
  lemma StatusRoundTrip(st: BlogStatus, s: string)
    ensures ParseStatus(StatusName(st)) == Some(st)
    ensures ParseStatus(s) == Some(st) <==> s == StatusName(st)
  {
  }

  predicate SlugChar(c: char) {
    ('a' <= c <= 'z') || ('0' <= c <= '9') || c == '-'
  }

  /** `/^[a-z0-9-]+$/.test(s)`, matched one character at a time. */
  predicate MatchesSlugPattern(s: string) {
    |s| >= 1 && SlugChar(s[0]) && (|s| == 1 || MatchesSlugPattern(s[1..]))
  }

  /** The pattern accepts exactly the non-empty strings of lower-case letters, digits and hyphens. */
  lemma {:induction false} SlugPatternMeaning(s: string)
    ensures MatchesSlugPattern(s) <==> |s| >= 1 && forall i :: 0 <= i < |s| ==> SlugChar(s[i])
  {
    if |s| > 1 {
      SlugPatternMeaning(s[1..]);
      assert forall i :: 1 <= i < |s| ==> s[i] == s[1..][i - 1];
    }
  }

  function TitleRules(): seq<StrRule> {
    [MinLen(1, "Title is required"), MaxLen(200, "Title must be less than 200 characters")]
  }

  function SlugRules(): seq<StrRule> {
    [MinLen(1, "Slug is required"), MaxLen(100, "Slug must be less than 100 characters"),
     Regex(MatchesSlugPattern, "Slug must contain only lowercase letters, numbers, and hyphens")]
  }

  function ExcerptRules(): seq<StrRule> {
    [MaxLen(500, "Excerpt must be less than 500 characters")]
  }

  function ContentRules(): seq<StrRule> {
    [MinLen(1, "Content is required")]
  }

  function CoverImageRules(): seq<StrRule> {
    [Url("Invalid cover image URL")]
  }

  function ScheduledAtRules(): seq<StrRule> {
    [Datetime("Invalid date format")]
  }

  function MetaTitleRules(): seq<StrRule> {
    [MaxLen(60, "Meta title must be less than 60 characters")]
  }

  function MetaDescriptionRules(): seq<StrRule> {
    [MaxLen(160, "Meta description must be less than 160 characters")]
  }

  function MetaKeywordsRules(): seq<StrRule> {
    [MaxLen(200, "Meta keywords must be less than 200 characters")]
  }

  /** The keys of the create schema; the update schema has the same ones. */
  const BLOG_KEYS: set<string> := {
    "title", "slug", "excerpt", "content", "coverImage", "status",
    "scheduledPublishAt", "metaTitle", "metaDescription", "metaKeywords"}

  /**
   * The issues of `createBlogSchema` (`partial` false) or of
   * `updateBlogSchema` (`partial` true), field by field in the schema's order.
   * `.partial()` makes title, slug and content optional; the others already are.
   */
  function BlogIssues(o: JsObject, fmt: Formats, partial: bool): seq<Issue> {
    StringField(o, "title", TitleRules(), partial, fmt)
    + StringField(o, "slug", SlugRules(), partial, fmt)
    + StringField(o, "excerpt", ExcerptRules(), true, fmt)
    + StringField(o, "content", ContentRules(), partial, fmt)
    + StringField(o, "coverImage", CoverImageRules(), true, fmt)
    + EnumField(o, "status", BLOG_STATUSES, true)
    + StringField(o, "scheduledPublishAt", ScheduledAtRules(), true, fmt)
    + StringField(o, "metaTitle", MetaTitleRules(), true, fmt)
    + StringField(o, "metaDescription", MetaDescriptionRules(), true, fmt)
    + StringField(o, "metaKeywords", MetaKeywordsRules(), true, fmt)
  }

  /**
   * The parsed object: the schema's keys the input has, and on create a
   * DRAFT status when none was given. `.partial()` wraps the defaulted status
   * in one more `.optional()`, which answers a missing value before the
   * default is reached, so an update gets no status.
   */
  function BlogOutput(o: JsObject, partial: bool): JsObject {
    var kept := Strip(o, BLOG_KEYS);
    if !partial && Absent(o, "status") then kept["status" := Str("DRAFT")] else kept
  }

  /** The create (`partial` false) or update (`partial` true) schema's `safeParse`. */
  function ParseBlog(o: JsObject, fmt: Formats, partial: bool): (r: Result<JsObject, seq<Issue>>)
    ensures r.Success? <==> ValidBlogInput(o, fmt, partial)
    ensures r.Success? ==> r.value == BlogOutput(o, partial)
    ensures r.Failure? ==> r.error != []
  {
    BlogAcceptedIff(o, fmt, partial);
    Outcome(BlogIssues(o, fmt, partial), BlogOutput(o, partial))
  }

  /** `createBlogSchema.safeParse`: accepted exactly when every field rule holds, giving the parsed object. */
  function ParseCreateBlog(o: JsObject, fmt: Formats): (r: Result<JsObject, seq<Issue>>)
    ensures r.Success? <==> ValidBlogInput(o, fmt, false)
    ensures r.Success? ==> r.value == BlogOutput(o, false)
    ensures r.Failure? ==> r.error != []
  {
    ParseBlog(o, fmt, false)
  }

  /** `updateBlogSchema.safeParse`: the same rules with title, slug and content optional. */
  function ParseUpdateBlog(o: JsObject, fmt: Formats): (r: Result<JsObject, seq<Issue>>)
    ensures r.Success? <==> ValidBlogInput(o, fmt, true)
    ensures r.Success? ==> r.value == BlogOutput(o, true)
    ensures r.Failure? ==> r.error != []
  {
    ParseBlog(o, fmt, true)
  }

  predicate TitleOk(s: string) { 1 <= |s| <= 200 }

  predicate SlugOk(s: string) { 1 <= |s| <= 100 && forall i :: 0 <= i < |s| ==> SlugChar(s[i]) }

  predicate ContentOk(s: string) { |s| >= 1 }

  predicate ExcerptOk(s: string) { |s| <= 500 }

  predicate MetaTitleOk(s: string) { |s| <= 60 }

  predicate MetaDescriptionOk(s: string) { |s| <= 160 }

  predicate MetaKeywordsOk(s: string) { |s| <= 200 }

  predicate StatusOk(s: string) { ParseStatus(s).Some? }

  /** The field rules of the blog schemas, stated field by field. */
  predicate ValidBlogInput(o: JsObject, fmt: Formats, partial: bool) {
    && TextField(o, "title", partial, TitleOk)
    && TextField(o, "slug", partial, SlugOk)
    && TextField(o, "excerpt", true, ExcerptOk)
    && TextField(o, "content", partial, ContentOk)
    && TextField(o, "coverImage", true, fmt.isUrl)
    && TextField(o, "status", true, StatusOk)
    && TextField(o, "scheduledPublishAt", true, fmt.isDatetime)
    && TextField(o, "metaTitle", true, MetaTitleOk)
    && TextField(o, "metaDescription", true, MetaDescriptionOk)
    && TextField(o, "metaKeywords", true, MetaKeywordsOk)
  }

  lemma TitleRulesMeaning(s: string, fmt: Formats)
    ensures AllHold(TitleRules(), s, fmt) <==> TitleOk(s)
  {
    assert Holds(TitleRules()[0], s, fmt) && Holds(TitleRules()[1], s, fmt) ==> TitleOk(s);
  }

  /** A slug passes its three checks exactly when it has 1 to 100 characters, each in `[a-z0-9-]`. */
  lemma SlugRulesMeaning(s: string, fmt: Formats)
    ensures AllHold(SlugRules(), s, fmt) <==> SlugOk(s)
  {
    SlugPatternMeaning(s);
    assert Holds(SlugRules()[0], s, fmt) && Holds(SlugRules()[1], s, fmt) && Holds(SlugRules()[2], s, fmt)
      ==> SlugOk(s);
  }

  lemma EnumFieldMeaning(o: JsObject, fmt: Formats)
    ensures EnumField(o, "status", BLOG_STATUSES, true) == [] <==> TextField(o, "status", true, StatusOk)
  {
  }

  /** The checks of title, slug, excerpt, content and cover image mean their field rules. */
  lemma {:induction false} TextFieldsMeaning(o: JsObject, fmt: Formats, partial: bool)
    ensures StringField(o, "title", TitleRules(), partial, fmt) == [] <==> TextField(o, "title", partial, TitleOk)
    ensures StringField(o, "slug", SlugRules(), partial, fmt) == [] <==> TextField(o, "slug", partial, SlugOk)
    ensures StringField(o, "excerpt", ExcerptRules(), true, fmt) == [] <==> TextField(o, "excerpt", true, ExcerptOk)
    ensures StringField(o, "content", ContentRules(), partial, fmt) == [] <==>
              TextField(o, "content", partial, ContentOk)
    ensures StringField(o, "coverImage", CoverImageRules(), true, fmt) == [] <==>
              TextField(o, "coverImage", true, fmt.isUrl)
  {
    forall s ensures AllHold(TitleRules(), s, fmt) <==> TitleOk(s) { TitleRulesMeaning(s, fmt); }
    forall s ensures AllHold(SlugRules(), s, fmt) <==> SlugOk(s) { SlugRulesMeaning(s, fmt); }
    FieldMeaning(o, "title", TitleRules(), partial, fmt, TitleOk);
    FieldMeaning(o, "slug", SlugRules(), partial, fmt, SlugOk);
    SingleRuleField(o, "excerpt", ExcerptRules()[0], true, fmt, ExcerptOk);
    SingleRuleField(o, "content", ContentRules()[0], partial, fmt, ContentOk);
    SingleRuleField(o, "coverImage", CoverImageRules()[0], true, fmt, fmt.isUrl);
  }

  /** The checks of status, schedule time and the three meta fields mean their field rules. */
  lemma {:induction false} OtherFieldsMeaning(o: JsObject, fmt: Formats)
    ensures EnumField(o, "status", BLOG_STATUSES, true) == [] <==> TextField(o, "status", true, StatusOk)
    ensures StringField(o, "scheduledPublishAt", ScheduledAtRules(), true, fmt) == [] <==>
              TextField(o, "scheduledPublishAt", true, fmt.isDatetime)
    ensures StringField(o, "metaTitle", MetaTitleRules(), true, fmt) == [] <==>
              TextField(o, "metaTitle", true, MetaTitleOk)
    ensures StringField(o, "metaDescription", MetaDescriptionRules(), true, fmt) == [] <==>
              TextField(o, "metaDescription", true, MetaDescriptionOk)
    ensures StringField(o, "metaKeywords", MetaKeywordsRules(), true, fmt) == [] <==>
              TextField(o, "metaKeywords", true, MetaKeywordsOk)
  {
    EnumFieldMeaning(o, fmt);
    SingleRuleField(o, "scheduledPublishAt", ScheduledAtRules()[0], true, fmt, fmt.isDatetime);
    SingleRuleField(o, "metaTitle", MetaTitleRules()[0], true, fmt, MetaTitleOk);
    SingleRuleField(o, "metaDescription", MetaDescriptionRules()[0], true, fmt, MetaDescriptionOk);
    SingleRuleField(o, "metaKeywords", MetaKeywordsRules()[0], true, fmt, MetaKeywordsOk);
  }

  /** A blog is accepted by the create or the update schema exactly when it meets every field rule. */
  lemma {:induction false} BlogAcceptedIff(o: JsObject, fmt: Formats, partial: bool)
    ensures BlogIssues(o, fmt, partial) == [] <==> ValidBlogInput(o, fmt, partial)
  {
    TextFieldsMeaning(o, fmt, partial);
    OtherFieldsMeaning(o, fmt);
  }

  /** Whatever the create schema accepts, the update schema accepts too. */
  lemma {:induction false} CreateAcceptedIsUpdateAccepted(o: JsObject, fmt: Formats)
    requires ParseCreateBlog(o, fmt).Success?
    ensures ParseUpdateBlog(o, fmt).Success?
  {
    BlogAcceptedIff(o, fmt, false);
    BlogAcceptedIff(o, fmt, true);
  }

  /** The update schema accepts the empty object and yields the empty object. */
  lemma EmptyUpdateAccepted(fmt: Formats)
    ensures ParseUpdateBlog(map[], fmt) == Success(map[])
  {
    BlogAcceptedIff(map[], fmt, true);
    assert BlogOutput(map[], true) == map[];
  }

  /**
   * A create without a status yields DRAFT; an update without a status yields
   * no status; a given status is kept as it was in both. (An accepted input
   * parses to `BlogOutput`, by `Outcome`'s contract.)
   */
  lemma StatusDefault(o: JsObject, partial: bool)
    ensures Absent(o, "status") ==> BlogOutput(o, false)["status"] == Str("DRAFT")
    ensures Absent(o, "status") ==> Absent(BlogOutput(o, true), "status")
    ensures !Absent(o, "status") ==> "status" in BlogOutput(o, partial) && BlogOutput(o, partial)["status"] == o["status"]
  {
  }

  /** The message of the schedule schema's refinement. */
  const SCHEDULE_IN_PAST := "Scheduled publish date must be in the future (with 1 minute buffer for timezone differences)"

  /** `schedulePublishingSchema` at `now`: the parsed object holds the schedule time and nothing else. */
  function ParseSchedule(o: JsObject, fmt: Formats, now: Time): (r: Result<JsObject, seq<Issue>>)
    ensures Absent(o, "scheduledPublishAt") ==> r.Failure?
    ensures r.Success? ==> r.value == map["scheduledPublishAt" := o["scheduledPublishAt"]]
    ensures r.Failure? ==> r.error != []
  {
    Outcome(FutureDateField(o, "scheduledPublishAt", "Invalid date format", SCHEDULE_IN_PAST, false, fmt, now),
            Strip(o, {"scheduledPublishAt"}))
  }

  /**
   * A schedule time is accepted exactly when it is an ISO datetime whose
   * instant lies strictly after one minute before now; one minute before now
   * itself is refused.
   */
  lemma ScheduleAcceptedIff(o: JsObject, fmt: Formats, now: Time)
    ensures ParseSchedule(o, fmt, now).Success? <==>
              && !Absent(o, "scheduledPublishAt") && o["scheduledPublishAt"].Str?
              && fmt.isDatetime(o["scheduledPublishAt"].s)
              && fmt.parseDate(o["scheduledPublishAt"].s).Some?
              && fmt.parseDate(o["scheduledPublishAt"].s).value > now - 60000
    ensures !Absent(o, "scheduledPublishAt") && o["scheduledPublishAt"].Str?
              && fmt.parseDate(o["scheduledPublishAt"].s) == Some(now - 60000) ==>
              ParseSchedule(o, fmt, now).Failure?
  {
  }

  /** `blogStatusParamSchema`: the status route parameter is required and must name a status. */
  function ParseStatusParam(o: JsObject): (r: Result<JsObject, seq<Issue>>)
    ensures r.Success? <==> !Absent(o, "status") && o["status"].Str? && ParseStatus(o["status"].s).Some?
  {
    Outcome(EnumField(o, "status", BLOG_STATUSES, false), Strip(o, {"status"}))
  }
}
