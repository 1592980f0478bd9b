/**
 * The request sanitiser of the input-validation middleware: every string in
 * the body, query and params is trimmed and then loses its `<` and `>`
 * characters, recursively through arrays and objects. Also the named-schema
 * `validate`, whose Joi schemas are given as functions.
 */
module InputSanitizer {
  import opened Wrappers
  import opened Text
  import opened JsValues
  import opened ZodChecks
  import opened Http

  predicate IsAngle(c: char) {
    c == '<' || c == '>'
  }

  /** `s.replace(/[<>]/g, '')`. */
  function StripAngles(s: string): (r: string)
    ensures |r| <= |s|
    ensures forall i :: 0 <= i < |r| ==> !IsAngle(r[i])
    ensures forall c :: c in r <==> c in s && !IsAngle(c)
    ensures |s| == 1 ==> r == (if IsAngle(s[0]) then [] else s)
  {
    if s == [] then []
    else if IsAngle(s[0]) then StripAngles(s[1..])
    else [s[0]] + StripAngles(s[1..])
  }

  /**
   * Stripping works character by character: a string stripped in two pieces
   * is the two stripped pieces joined. With the one-character case of
   * `StripAngles`'s contract, this fixes the result as the input with its
   * angle brackets deleted and everything else kept, in order.
   */
  lemma {:induction false} StripAnglesAppend(a: string, b: string)
    ensures StripAngles(a + b) == StripAngles(a) + StripAngles(b)
  {
    if a == [] {
      assert a + b == b;
    } else {
      assert (a + b)[0] == a[0];
      assert (a + b)[1..] == a[1..] + b;
      StripAnglesAppend(a[1..], b);
    }
  }

  /** `sanitizeString`: trim, then strip the angle brackets. */
  function SanitizeString(s: string): string {
    StripAngles(Trim(s))
  }

  /** A sanitised string holds no angle bracket and is never longer than the input. */
  lemma SanitizedStringBounds(s: string)
    ensures forall c :: c in SanitizeString(s) ==> !IsAngle(c)
    ensures |SanitizeString(s)| <= |s|
  {
  }

  /**
   * Trimming comes first, so a bracket removed at the end can uncover
   * whitespace: `"a <"` becomes `"a "`, which a second pass turns into `"a"`.
   */
  lemma SanitizeNotIdempotent()
    ensures SanitizeString("a <") == "a "
    ensures SanitizeString("a ") == "a"
  {
    TrimStartNoop("a <");
    TrimEndNoop("a <");
    assert StripAngles("<") == [];
    assert StripAngles(" <") == " ";
    assert StripAngles("a <") == "a ";
    TrimStartNoop("a ");
    assert TrimEnd("a ") == "a" by {
      assert "a "[..|"a "| - 1] == "a";
      TrimEndNoop("a");
    }
    assert StripAngles("a") == "a";
  }

  /**
   * `sanitizeObject`: strings sanitised, arrays and objects rebuilt with
   * their elements and values sanitised, anything else returned as it is.
   */
  function Sanitized(v: JsValue): (r: JsValue)
    ensures v.Str? <==> r.Str?
    ensures v.Arr? <==> r.Arr?
    ensures v.Obj? <==> r.Obj?
    ensures v.Arr? ==> |r.items| == |v.items|
    ensures v.Obj? ==> r.fields.Keys == v.fields.Keys
    ensures !v.Str? && !v.Arr? && !v.Obj? ==> r == v
    decreases v
  {
    match v
    case Str(s) => Str(SanitizeString(s))
    case Arr(items) => Arr(seq(|items|, i requires 0 <= i < |items| => Sanitized(items[i])))
    case Obj(fields) => Obj(map k | k in fields :: Sanitized(fields[k]))
    case _ => v
  }

  /** No string anywhere inside `v` holds an angle bracket. */
  predicate NoAngles(v: JsValue)
    decreases v
  {
    match v
    case Str(s) => forall i :: 0 <= i < |s| ==> !IsAngle(s[i])
    case Arr(items) => forall i :: 0 <= i < |items| ==> NoAngles(items[i])
    case Obj(fields) => forall k :: k in fields ==> NoAngles(fields[k])
    case _ => true
  }

  /** After sanitising, no string at any depth holds an angle bracket. */
  lemma {:induction false} SanitizedHasNoAngles(v: JsValue)
    ensures NoAngles(Sanitized(v))
    decreases v
  {
    match v
    case Str(s) =>
    case Arr(items) =>
      forall i | 0 <= i < |items| ensures NoAngles(Sanitized(v).items[i]) {
        SanitizedHasNoAngles(items[i]);
      }
    case Obj(fields) =>
      forall k | k in fields ensures NoAngles(Sanitized(v).fields[k]) {
        SanitizedHasNoAngles(fields[k]);
      }
    case _ =>
  }

  /** `sanitizeObject`, with the loops of `obj.map` and of `Object.entries`. */
  method SanitizeObject(v: JsValue) returns (r: JsValue)
    ensures r == Sanitized(v)
    decreases v
  {
    match v {
      case Str(s) =>
        r := Str(SanitizeString(s));
      case Arr(items) =>
        var done: seq<JsValue> := [];
        var i := 0;
        while i < |items|
          invariant 0 <= i <= |items|
          invariant |done| == i
          invariant forall j :: 0 <= j < i ==> done[j] == Sanitized(items[j])
        {
          var item := SanitizeObject(items[i]);
          done := done + [item];
          i := i + 1;
        }
        assert done == Sanitized(v).items;
        r := Arr(done);
      case Obj(fields) =>
        var sanitized: map<string, JsValue> := map[];
        var todo := fields.Keys;
        while todo != {}
          invariant todo <= fields.Keys
          invariant sanitized.Keys == fields.Keys - todo
          invariant forall k :: k in sanitized ==> sanitized[k] == Sanitized(fields[k])
          decreases todo
        {
          var k :| k in todo;
          var value := SanitizeObject(fields[k]);
          sanitized := sanitized[k := value];
          todo := todo - {k};
        }
        assert sanitized == Sanitized(v).fields;
        r := Obj(sanitized);
      case _ =>
        r := v;
    }
  }

  /** The three parts of a request the sanitiser rewrites. */
  class Request {
    var body: JsValue
    var query: JsValue
    var params: JsValue

    constructor(body: JsValue, query: JsValue, params: JsValue)
      ensures this.body == body && this.query == query && this.params == params
    {
      this.body := body;
      this.query := query;
      this.params := params;
    }

    /** `sanitizeInput`: each part is replaced by its sanitised copy only when it is truthy; the request always continues. */
    method SanitizeInput()
      modifies this
      ensures body == SanitizedPart(old(body))
      ensures query == SanitizedPart(old(query))
      ensures params == SanitizedPart(old(params))
    {
      if Truthy(body) {
        body := SanitizeObject(body);
      }
      if Truthy(query) {
        query := SanitizeObject(query);
      }
      if Truthy(params) {
        params := SanitizeObject(params);
      }
    }
  }

  /** What `sanitizeInput` leaves in one part of the request. */
  function SanitizedPart(v: JsValue): JsValue {
    if Truthy(v) then Sanitized(v) else v
  }

  /**
   * Sanitising changes only strings: a falsy part (undefined, null, false,
   * 0, the empty string) is left as it was, and so is one without strings.
   */
  lemma SanitizedPartKeepsScalars(v: JsValue)
    ensures v.Undefined? || v.Null? || v.Bool? || v.Num? ==> SanitizedPart(v) == v
    ensures v == Str("") ==> SanitizedPart(v) == v
    ensures NoAngles(SanitizedPart(v)) || !Truthy(v)
  {
    SanitizedHasNoAngles(v);
  }

  /** The names of the Joi schemas. */
  const SCHEMA_NAMES: set<string> := {
    "login", "register", "changePassword", "forgotPassword", "resetPassword", "refreshToken",
    "updateProfile", "logNutrition", "chatbotMessage", "createPayment", "verifyPayment",
    "paginationQuery", "gymQuery", "nutritionQuery"}

  /** A Joi schema with `abortEarly: false, stripUnknown: true`: the cleaned value, or every detail. */
  type JoiSchema = JsValue -> Result<JsValue, seq<Issue>>

  /** `{ error: message }`. */
  function ErrorBody(status: int, message: string): Reply {
    Reply(status, Obj(map["error" := Str(message)]))
  }

  /** `{ error: 'Validation failed', details }` with status 400. */
  function JoiFailed(details: seq<Issue>): Reply {
    Reply(400, Obj(map["error" := Str("Validation failed"), "details" := Arr(IssueEntries(details))]))
  }

  /**
   * `validate(schemaName)` on the request part `input`: an unknown schema
   * name answers 500; a value Joi refuses answers 400 with every detail;
   * otherwise the part is replaced by Joi's value.
   */
  function ValidateNamed(schemas: map<string, JoiSchema>, schemaName: string, input: JsValue): (r: Step<JsValue>)
    ensures schemaName !in schemas ==> r == Respond(ErrorBody(500, "Internal server error: Invalid validation schema"))
    ensures r.Continue? <==> schemaName in schemas && schemas[schemaName](input).Success?
    ensures r.Continue? ==> r.value == schemas[schemaName](input).value
    ensures schemaName in schemas && schemas[schemaName](input).Failure? ==>
              r == Respond(JoiFailed(schemas[schemaName](input).error))
  {
    if schemaName !in schemas then Respond(ErrorBody(500, "Internal server error: Invalid validation schema"))
    else
      match schemas[schemaName](input)
      case Failure(details) =>
        Respond(JoiFailed(details))
      case Success(value) => Continue(value)
  }

  /** Schema names are matched exactly: with the fourteen schemas in place, `"Login"` answers 500 whatever the input. */
  lemma MisspelledSchemaAnswers500(schemas: map<string, JoiSchema>, input: JsValue)
    requires schemas.Keys == SCHEMA_NAMES
    ensures ValidateNamed(schemas, "Login", input) == Respond(ErrorBody(500, "Internal server error: Invalid validation schema"))
  {
    assert "Login" !in SCHEMA_NAMES;
  }
}
