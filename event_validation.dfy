/**
 * The Zod schemas of the events API: the event and response status enums,
 * the create schema (and the update schema, every field made optional), and
 * the registration schema with its phone pattern.
 */
module EventValidation {
  import opened Wrappers
  import opened Text
  import opened JsValues
  import opened ZodChecks

  const EVENT_STATUSES: seq<string> := ["DRAFT", "PUBLISHED", "CANCELLED", "COMPLETED"]

  const RESPONSE_STATUSES: seq<string> := ["PENDING", "CONFIRMED", "CANCELLED"]

  function TitleRules(): seq<StrRule> {
    [MinLen(1, "Title is required"), MaxLen(200, "Title must be less than 200 characters")]
  }

  /** `z.string().max(200)` with Zod's own message. */
  function SubtitleRules(): seq<StrRule> {
    [MaxLen(200, "String must contain at most 200 character(s)")]
  }

  function DescriptionRules(): seq<StrRule> {
    [MinLen(1, "Description is required"), MaxLen(2000, "Description must be less than 2000 characters")]
  }

  function LocationRules(): seq<StrRule> {
    [MaxLen(500, "Location must be less than 500 characters")]
  }

  function ImageUrlRules(): seq<StrRule> {
    [Url("Invalid image URL")]
  }

  /** `/^https?:\/\//.test(s)`. */
  predicate HttpUrl(s: string) {
    StartsWith(s, "http://") || StartsWith(s, "https://")
  }

  /**
   * `coverImage`: a string; the empty string becomes `undefined` and passes;
   * any other string must start with `http://` or `https://`.
   */
  function CoverImageField(o: JsObject): (issues: seq<Issue>)
    ensures issues == [] <==> Absent(o, "coverImage") || (o["coverImage"].Str? && CoverImageOk(o["coverImage"].s))
  {
    if Absent(o, "coverImage") then []
    else if !o["coverImage"].Str? then [InvalidType("coverImage", "string", o["coverImage"])]
    else if CoverImageOk(o["coverImage"].s) then []
    else [Issue("coverImage", "Invalid cover image URL")]
  }

  predicate CoverImageOk(s: string) {
    s == "" || HttpUrl(s)
  }

  const EVENT_DATE_IN_PAST := "Event date must be in the future (with 1 minute buffer for timezone differences)"

  /** `entryFee`: an optional number that is not negative. */
  function EntryFeeField(o: JsObject): (issues: seq<Issue>)
    ensures issues == [] <==> Absent(o, "entryFee") || (o["entryFee"].Num? && o["entryFee"].n >= 0.0)
  {
    if Absent(o, "entryFee") then []
    else if !o["entryFee"].Num? then [InvalidType("entryFee", "number", o["entryFee"])]
    else if o["entryFee"].n >= 0.0 then []
    else [Issue("entryFee", "Entry fee cannot be negative")]
  }

  const DETAIL_KEYS: set<string> := {"included", "benefits", "schedule", "routeInfo"}

  function DetailIssues(d: JsObject, fmt: Formats): seq<Issue> {
    StringArrayField(d, "included", [], true, fmt)
    + StringArrayField(d, "benefits", [], true, fmt)
    + StringArrayField(d, "schedule", [], true, fmt)
    + StringField(d, "routeInfo", [], true, fmt)
  }

  /** `details`: an optional object of three optional string arrays and an optional string. */
  function DetailsField(o: JsObject, fmt: Formats): (issues: seq<Issue>) {
    if Absent(o, "details") then []
    else if !o["details"].Obj? then [InvalidType("details", "object", o["details"])]
    else Nested("details", DetailIssues(o["details"].fields, fmt))
  }

  const EVENT_KEYS: set<string> := {
    "title", "title1", "title2", "title3", "description", "details", "descriptionBlocks",
    "coverImage", "imageUrls", "location", "date", "entryFee", "status"}

  /**
   * The issues of `createEventSchema` at `now` (`partial` false) or of
   * `updateEventSchema` (`partial` true), field by field in the schema's order.
   */
  function EventIssues(o: JsObject, fmt: Formats, now: int, partial: bool): seq<Issue> {
    StringField(o, "title", TitleRules(), partial, fmt)
    + StringField(o, "title1", SubtitleRules(), true, fmt)
    + StringField(o, "title2", SubtitleRules(), true, fmt)
    + StringField(o, "title3", SubtitleRules(), true, fmt)
    + StringField(o, "description", DescriptionRules(), partial, fmt)
    + DetailsField(o, fmt)
    + StringArrayField(o, "descriptionBlocks", [], true, fmt)
    + CoverImageField(o)
    + StringArrayField(o, "imageUrls", ImageUrlRules(), true, fmt)
    + StringField(o, "location", LocationRules(), true, fmt)
    + FutureDateField(o, "date", "Invalid date format", EVENT_DATE_IN_PAST, partial, fmt, now)
    + EntryFeeField(o)
    + EnumField(o, "status", EVENT_STATUSES, true)
  }

  /**
   * The parsed event: the schema's keys the input has, unknown keys of
   * `details` dropped, an empty cover image turned into `undefined`, and on
   * create an empty image list and a DRAFT status when none was given.
   */
  function EventOutput(o: JsObject, partial: bool): JsObject {
    var kept := Strip(o, EVENT_KEYS);
    var withDetails := if "details" in kept && kept["details"].Obj?
                       then kept["details" := Obj(Strip(kept["details"].fields, DETAIL_KEYS))] else kept;
    var withCover := if "coverImage" in withDetails && withDetails["coverImage"] == Str("")
                     then withDetails["coverImage" := Undefined] else withDetails;
    var withImages := if !partial && Absent(o, "imageUrls") then withCover["imageUrls" := Arr([])] else withCover;
    if !partial && Absent(o, "status") then withImages["status" := Str("DRAFT")] else withImages
  }

  /** The create (`partial` false) or update (`partial` true) schema's `safeParse` at `now`. */
  function ParseEvent(o: JsObject, fmt: Formats, now: int, partial: bool): (r: Result<JsObject, seq<Issue>>)
    ensures r.Success? <==> ValidEventInput(o, fmt, now, partial)
    ensures r.Success? ==> r.value == EventOutput(o, partial)
    ensures r.Failure? ==> r.error != []
  {
    EventAcceptedIff(o, fmt, now, partial);
    Outcome(EventIssues(o, fmt, now, partial), EventOutput(o, partial))
  }

  /** `createEventSchema.safeParse` at `now`: accepted exactly when every field rule holds, giving the parsed event. */
  function ParseCreateEvent(o: JsObject, fmt: Formats, now: int): (r: Result<JsObject, seq<Issue>>)
    ensures r.Success? <==> ValidEventInput(o, fmt, now, false)
    ensures r.Success? ==> r.value == EventOutput(o, false)
    ensures r.Failure? ==> r.error != []
  {
    ParseEvent(o, fmt, now, false)
  }

  /** `updateEventSchema.safeParse` at `now`: the same rules with the required fields optional. */
  function ParseUpdateEvent(o: JsObject, fmt: Formats, now: int): (r: Result<JsObject, seq<Issue>>)
    ensures r.Success? <==> ValidEventInput(o, fmt, now, true)
    ensures r.Success? ==> r.value == EventOutput(o, true)
    ensures r.Failure? ==> r.error != []
  {
    ParseEvent(o, fmt, now, true)
  }

  predicate EventTitleOk(s: string) { 1 <= |s| <= 200 }

  predicate DescriptionOk(s: string) { 1 <= |s| <= 2000 }

  lemma TwoRulesMeaning(rules: seq<StrRule>, s: string, fmt: Formats)
    requires |rules| == 2
    ensures AllHold(rules, s, fmt) <==> Holds(rules[0], s, fmt) && Holds(rules[1], s, fmt)
  {
    assert Holds(rules[0], s, fmt) && Holds(rules[1], s, fmt) ==> AllHold(rules, s, fmt);
  }

  predicate SubtitleOk(s: string) { |s| <= 200 }

  predicate LocationOk(s: string) { |s| <= 500 }

  /** An optional array whose elements are all strings. */
  predicate StringList(o: JsObject, k: string) {
    Absent(o, k) || (o[k].Arr? && forall j :: 0 <= j < |o[k].items| ==> o[k].items[j].Str?)
  }

  predicate DetailsOk(d: JsObject) {
    && StringList(d, "included") && StringList(d, "benefits") && StringList(d, "schedule")
    && (Absent(d, "routeInfo") || d["routeInfo"].Str?)
  }

  /**
   * What the event schemas demand, field by field, in the terms of their
   * messages: a title of 1 to 200 characters and a description of 1 to 2000
   * (both required on create), subtitles of at most 200, well-typed details
   * and description blocks, a cover image that is empty or an http(s)
   * address, image addresses that are URLs, a location of at most 500, an ISO
   * date after the one-minute allowance (required on create), a fee that is
   * not negative and a known status.
   */
  predicate ValidEventInput(o: JsObject, fmt: Formats, now: int, partial: bool) {
    && TextField(o, "title", partial, EventTitleOk)
    && TextField(o, "title1", true, SubtitleOk)
    && TextField(o, "title2", true, SubtitleOk)
    && TextField(o, "title3", true, SubtitleOk)
    && TextField(o, "description", partial, DescriptionOk)
    && (Absent(o, "details") || (o["details"].Obj? && DetailsOk(o["details"].fields)))
    && StringList(o, "descriptionBlocks")
    && (Absent(o, "coverImage") || (o["coverImage"].Str? && CoverImageOk(o["coverImage"].s)))
    && (Absent(o, "imageUrls") ||
        (o["imageUrls"].Arr? &&
         forall j :: 0 <= j < |o["imageUrls"].items| ==>
           o["imageUrls"].items[j].Str? && fmt.isUrl(o["imageUrls"].items[j].s)))
    && TextField(o, "location", true, LocationOk)
    && (if Absent(o, "date") then partial
        else o["date"].Str? && fmt.isDatetime(o["date"].s) && AfterBuffer(fmt.parseDate(o["date"].s), now))
    && (Absent(o, "entryFee") || (o["entryFee"].Num? && o["entryFee"].n >= 0.0))
    && (Absent(o, "status") || (o["status"].Str? && o["status"].s in EVENT_STATUSES))
  }

  lemma StringListMeaning(o: JsObject, k: string, fmt: Formats)
    ensures StringArrayField(o, k, [], true, fmt) == [] <==> StringList(o, k)
  {
    if !Absent(o, k) && o[k].Arr? {
      assert forall s :: AllHold([], s, fmt);
    }
  }

  lemma ImageUrlsMeaning(o: JsObject, fmt: Formats)
    ensures StringArrayField(o, "imageUrls", ImageUrlRules(), true, fmt) == [] <==>
              (Absent(o, "imageUrls") ||
               (o["imageUrls"].Arr? &&
                forall j :: 0 <= j < |o["imageUrls"].items| ==>
                  o["imageUrls"].items[j].Str? && fmt.isUrl(o["imageUrls"].items[j].s)))
  {
    forall s ensures AllHold(ImageUrlRules(), s, fmt) <==> fmt.isUrl(s) {
      OneRuleMeaning(ImageUrlRules(), s, fmt);
    }
  }

  lemma DetailsMeaning(o: JsObject, fmt: Formats)
    ensures DetailsField(o, fmt) == [] <==> Absent(o, "details") || (o["details"].Obj? && DetailsOk(o["details"].fields))
  {
    if !Absent(o, "details") && o["details"].Obj? {
      var d := o["details"].fields;
      StringListMeaning(d, "included", fmt);
      StringListMeaning(d, "benefits", fmt);
      StringListMeaning(d, "schedule", fmt);
      assert forall s :: AllHold([], s, fmt);
      assert |Nested("details", DetailIssues(d, fmt))| == |DetailIssues(d, fmt)|;
    }
  }

  /** The checks of the title, the three subtitles and the description mean their field rules. */
  lemma {:induction false} TextFieldsMeaning(o: JsObject, fmt: Formats, partial: bool)
    ensures StringField(o, "title", TitleRules(), partial, fmt) == [] <==> TextField(o, "title", partial, EventTitleOk)
    ensures StringField(o, "title1", SubtitleRules(), true, fmt) == [] <==> TextField(o, "title1", true, SubtitleOk)
    ensures StringField(o, "title2", SubtitleRules(), true, fmt) == [] <==> TextField(o, "title2", true, SubtitleOk)
    ensures StringField(o, "title3", SubtitleRules(), true, fmt) == [] <==> TextField(o, "title3", true, SubtitleOk)
    ensures StringField(o, "description", DescriptionRules(), partial, fmt) == [] <==>
              TextField(o, "description", partial, DescriptionOk)
  {
    forall s ensures AllHold(TitleRules(), s, fmt) <==> EventTitleOk(s) {
      TwoRulesMeaning(TitleRules(), s, fmt);
    }
    forall s ensures AllHold(DescriptionRules(), s, fmt) <==> DescriptionOk(s) {
      TwoRulesMeaning(DescriptionRules(), s, fmt);
    }
    FieldMeaning(o, "title", TitleRules(), partial, fmt, EventTitleOk);
    SingleRuleField(o, "title1", SubtitleRules()[0], true, fmt, SubtitleOk);
    SingleRuleField(o, "title2", SubtitleRules()[0], true, fmt, SubtitleOk);
    SingleRuleField(o, "title3", SubtitleRules()[0], true, fmt, SubtitleOk);
    FieldMeaning(o, "description", DescriptionRules(), partial, fmt, DescriptionOk);
  }

  /** The checks of the details, the description blocks, the image list and the location mean their field rules. */
  lemma {:induction false} ListFieldsMeaning(o: JsObject, fmt: Formats)
    ensures DetailsField(o, fmt) == [] <==> Absent(o, "details") || (o["details"].Obj? && DetailsOk(o["details"].fields))
    ensures StringArrayField(o, "descriptionBlocks", [], true, fmt) == [] <==> StringList(o, "descriptionBlocks")
    ensures StringArrayField(o, "imageUrls", ImageUrlRules(), true, fmt) == [] <==>
              (Absent(o, "imageUrls") ||
               (o["imageUrls"].Arr? &&
                forall j :: 0 <= j < |o["imageUrls"].items| ==>
                  o["imageUrls"].items[j].Str? && fmt.isUrl(o["imageUrls"].items[j].s)))
    ensures StringField(o, "location", LocationRules(), true, fmt) == [] <==> TextField(o, "location", true, LocationOk)
  {
    DetailsMeaning(o, fmt);
    StringListMeaning(o, "descriptionBlocks", fmt);
    ImageUrlsMeaning(o, fmt);
    SingleRuleField(o, "location", LocationRules()[0], true, fmt, LocationOk);
  }

  /** An event is accepted exactly when every field meets what its schema demands. */
  lemma {:induction false} EventAcceptedIff(o: JsObject, fmt: Formats, now: int, partial: bool)
    ensures EventIssues(o, fmt, now, partial) == [] <==> ValidEventInput(o, fmt, now, partial)
  {
    TextFieldsMeaning(o, fmt, partial);
    ListFieldsMeaning(o, fmt);
  }

  /** Whatever the create schema accepts, the update schema accepts too. */
  lemma CreateEventAcceptedIsUpdateAccepted(o: JsObject, fmt: Formats, now: int)
    requires ParseCreateEvent(o, fmt, now).Success?
    ensures ParseUpdateEvent(o, fmt, now).Success?
  {
    EventAcceptedIff(o, fmt, now, false);
    EventAcceptedIff(o, fmt, now, true);
  }

  /** An empty cover image passes and comes out as `undefined`, as if it had not been given. */
  lemma EmptyCoverImageIsAbsent(o: JsObject, partial: bool)
    requires "coverImage" in o && o["coverImage"] == Str("")
    ensures CoverImageField(o) == []
    ensures Absent(EventOutput(o, partial), "coverImage")
  {
  }

  /**
   * A create without status or image list gets DRAFT and the empty list; an
   * update gets neither. (An accepted input parses to `EventOutput`, by
   * `Outcome`'s contract.)
   */
  lemma EventDefaults(o: JsObject)
    ensures Absent(o, "status") ==> EventOutput(o, false)["status"] == Str("DRAFT")
    ensures Absent(o, "imageUrls") ==> EventOutput(o, false)["imageUrls"] == Arr([])
    ensures Absent(o, "status") ==> Absent(EventOutput(o, true), "status")
  {
  }

  /** An event dated exactly one minute before now is refused; one dated now is not refused for its date. */
  lemma EventDateBoundary(o: JsObject, fmt: Formats, now: int)
    requires "date" in o && o["date"].Str? && fmt.isDatetime(o["date"].s)
    ensures fmt.parseDate(o["date"].s) == Some(now - 60000) ==> ParseCreateEvent(o, fmt, now).Failure?
    ensures fmt.parseDate(o["date"].s) == Some(now) ==>
              FutureDateField(o, "date", "Invalid date format", EVENT_DATE_IN_PAST, false, fmt, now) == []
  {
    if fmt.parseDate(o["date"].s) == Some(now - 60000) {
      assert FutureDateField(o, "date", "Invalid date format", EVENT_DATE_IN_PAST, false, fmt, now) != [];
      assert EventIssues(o, fmt, now, false) != [];
    }
  }

  predicate PhoneDigit(c: char) { '0' <= c <= '9' }

  predicate LeadingDigit(c: char) { '1' <= c <= '9' }

  /** `[1-9][\d]{0,15}`: a non-zero digit followed by at most fifteen digits. */
  predicate PhoneDigits(t: string) {
    1 <= |t| <= 16 && LeadingDigit(t[0]) && forall i :: 1 <= i < |t| ==> PhoneDigit(t[i])
  }

  /** `/^[\+]?[1-9][\d]{0,15}$/.test(s)`, matched left to right: a leading `+` can only be the sign. */
  predicate MatchesPhonePattern(s: string) {
    if |s| > 0 && s[0] == '+' then PhoneDigits(s[1..]) else PhoneDigits(s)
  }

  /** The pattern's declarative reading: an optional sign, then the digits. */
  ghost predicate PhoneShape(s: string) {
    exists sign: string, rest: string :: (sign == "" || sign == "+") && s == sign + rest && PhoneDigits(rest)
  }

  /**
   * The left-to-right match agrees with the declarative reading, and a
   * matching number has 1 to 17 characters.
   */
  lemma PhonePatternMeaning(s: string)
    ensures MatchesPhonePattern(s) <==> PhoneShape(s)
    ensures MatchesPhonePattern(s) ==> 1 <= |s| <= 17
  {
    if MatchesPhonePattern(s) {
      if |s| > 0 && s[0] == '+' {
        assert s == "+" + s[1..];
      } else {
        assert s == "" + s;
      }
    }
    if PhoneShape(s) {
      var sign: string, rest: string :| (sign == "" || sign == "+") && s == sign + rest && PhoneDigits(rest);
      if sign == "+" {
        assert s[0] == '+' && s[1..] == rest;
      } else {
        assert s == rest;
      }
    }
  }

  function NameRules(): seq<StrRule> {
    [MinLen(1, "Name is required"), MaxLen(100, "Name must be less than 100 characters")]
  }

  function PhoneRules(): seq<StrRule> {
    [MinLen(1, "Phone number is required"), MaxLen(20, "Phone number must be less than 20 characters"),
     Regex(MatchesPhonePattern, "Invalid phone number format")]
  }

  function EmailRules(): seq<StrRule> {
    [Email("Invalid email format"), MaxLen(255, "Email must be less than 255 characters")]
  }

  /** `createEventResponseSchema`: the parsed object holds the name, the phone and the e-mail, as given. */
  function ParseRegistration(o: JsObject, fmt: Formats): (r: Result<JsObject, seq<Issue>>)
    ensures Absent(o, "name") || Absent(o, "phone") || Absent(o, "email") ==> r.Failure?
    ensures r.Success? ==> r.value.Keys == {"name", "phone", "email"}
                           && forall k :: k in r.value ==> r.value[k] == o[k]
    ensures r.Failure? ==> r.error != []
  {
    Outcome(StringField(o, "name", NameRules(), false, fmt)
            + StringField(o, "phone", PhoneRules(), false, fmt)
            + StringField(o, "email", EmailRules(), false, fmt),
            Strip(o, {"name", "phone", "email"}))
  }

  /**
   * A phone number passes its three checks exactly when it matches the
   * pattern; the pattern alone keeps it within 1 to 17 characters, so the
   * length checks never decide.
   */
  lemma PhoneRulesMeaning(s: string, fmt: Formats)
    ensures AllHold(PhoneRules(), s, fmt) <==> PhoneShape(s)
  {
    PhonePatternMeaning(s);
    assert Holds(PhoneRules()[0], s, fmt) && Holds(PhoneRules()[1], s, fmt) && Holds(PhoneRules()[2], s, fmt)
      ==> AllHold(PhoneRules(), s, fmt);
  }

  /** A registration is accepted exactly when name, phone and e-mail each meet their rules. */
  lemma RegistrationAcceptedIff(o: JsObject, fmt: Formats)
    ensures ParseRegistration(o, fmt).Success? <==>
              && !Absent(o, "name") && o["name"].Str? && 1 <= |o["name"].s| <= 100
              && !Absent(o, "phone") && o["phone"].Str? && PhoneShape(o["phone"].s)
              && !Absent(o, "email") && o["email"].Str? && fmt.isEmail(o["email"].s) && |o["email"].s| <= 255
  {
    if !Absent(o, "name") && o["name"].Str? { TwoRulesMeaning(NameRules(), o["name"].s, fmt); }
    if !Absent(o, "phone") && o["phone"].Str? { PhoneRulesMeaning(o["phone"].s, fmt); }
    if !Absent(o, "email") && o["email"].Str? { TwoRulesMeaning(EmailRules(), o["email"].s, fmt); }
  }

  /** `updateEventResponseSchema`: the status is required and must be a response status. */
  function ParseResponseStatus(o: JsObject): (r: Result<JsObject, seq<Issue>>)
    ensures r.Success? <==> !Absent(o, "status") && o["status"].Str? && o["status"].s in RESPONSE_STATUSES
  {
    Outcome(EnumField(o, "status", RESPONSE_STATUSES, false), Strip(o, {"status"}))
  }
}
