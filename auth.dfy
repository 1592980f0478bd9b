/**
 * The two authentication middlewares: `authenticate`, which takes the token
 * from the `token` cookie or else from a `Bearer` Authorization header, and
 * `authorizeFrontdesk`, which admits staff users, for their own gym only.
 * `jwt.verify` is an input: the decoded payload, or `None` when it throws.
 */
module Auth {
  import opened Wrappers
  import opened Text
  import opened JsValues
  import opened Http

  /** `jwt.verify(token, secret)` with the secret fixed. */
  type Verifier = string -> Option<JsValue>

  /** A missing value or the empty string: what `!token` rejects. */
  predicate NoToken(t: Option<string>) {
    t.None? || t.value == ""
  }

  /** A header starting with `Bearer ` splits on spaces into at least two pieces, the first being `Bearer`. */
  lemma BearerPieces(h: string)
    requires StartsWith(h, "Bearer ")
    ensures |Split(h, ' ')| >= 2 && Split(h, ' ')[0] == "Bearer"
    ensures Split(h, ' ')[1] == Split(h[7..], ' ')[0]
  {
    assert h == "Bearer" + [' '] + h[7..];
    SplitFirst("Bearer", ' ', h[7..]);
  }

  /** The token `authenticate` settles on: the cookie's, or else the second piece of a `Bearer` header. */
  function AuthenticateToken(cookie: Option<string>, header: Option<string>): (t: Option<string>)
    ensures !NoToken(cookie) ==> t == cookie
    ensures NoToken(cookie) && !StartsWith(header.GetOr(""), "Bearer ") ==> t == cookie
  {
    var authHeader := if header.Some? then header.value else "";
    if NoToken(cookie) && StartsWith(authHeader, "Bearer ") then
      BearerPieces(authHeader);
      Some(Split(authHeader, ' ')[1])
    else cookie
  }

  /**
   * `authenticate`: no token answers 401; a token `jwt.verify` rejects
   * answers 401; otherwise the decoded payload becomes `req.user`.
   */
  function Authenticate(cookie: Option<string>, header: Option<string>, verify: Verifier): (r: Step<JsValue>)
    ensures NoToken(AuthenticateToken(cookie, header)) ==>
              r == Respond(Reply(401, Obj(map["message" := Str("No token, authorization denied")])))
    ensures r.Continue? <==>
              !NoToken(AuthenticateToken(cookie, header)) && verify(AuthenticateToken(cookie, header).value).Some?
    ensures r.Continue? ==> r.value == verify(AuthenticateToken(cookie, header).value).value
    ensures !NoToken(AuthenticateToken(cookie, header)) && verify(AuthenticateToken(cookie, header).value).None? ==>
              r == Respond(Reply(401, Obj(map["message" := Str("Token is not valid")])))
  {
    var token := AuthenticateToken(cookie, header);
    if NoToken(token) then Respond(Reply(401, Obj(map["message" := Str("No token, authorization denied")])))
    else
      match verify(token.value)
      case None => Respond(Reply(401, Obj(map["message" := Str("Token is not valid")])))
      case Some(decoded) => Continue(decoded)
  }

  /** A cookie token wins over any header: the header is then never read. */
  lemma CookieFirst(t: string, header1: Option<string>, header2: Option<string>, verify: Verifier)
    requires t != ""
    ensures Authenticate(Some(t), header1, verify) == Authenticate(Some(t), header2, verify)
    ensures Authenticate(Some(t), header1, verify).Continue? <==> verify(t).Some?
  {
  }

  /**
   * Without a cookie, `Authorization: Bearer <t>` with a space-free `t`
   * authenticates with `t`; a header in any other scheme counts as no token.
   */
  lemma BearerHeader(t: string, verify: Verifier)
    requires ' ' !in t
    ensures AuthenticateToken(None, Some("Bearer " + t)) == Some(t)
    ensures Authenticate(None, Some("Basic " + t), verify) ==
              Respond(Reply(401, Obj(map["message" := Str("No token, authorization denied")])))
  {
    var h := "Bearer " + t;
    assert StartsWith(h, "Bearer ");
    BearerPieces(h);
    assert h[7..] == t;
    SplitNone(t, ' ');
    assert !StartsWith("Basic " + t, "Bearer ") by {
      assert ("Basic " + t)[1] != "Bearer "[1];
    }
  }

  /** `obj.key` for a payload or a request part: `undefined` when there is no such own property. */
  function Prop(v: JsValue, key: string): JsValue {
    if v.Obj? && key in v.fields then v.fields[key] else Undefined
  }

  /** `req.headers.authorization && req.headers.authorization.split(' ')[1]`. */
  function FrontdeskToken(header: Option<string>): (t: Option<string>)
    ensures header.None? ==> t.None?
    ensures header == Some("") ==> NoToken(t)
    ensures header.Some? && header.value != "" && ' ' !in header.value ==> t.None?
    ensures header.Some? && ' ' in header.value ==>
              var parts := Split(header.value, ' ');
              |parts| >= 2 && t == Some(parts[1])
  {
    if header.None? || header.value == "" then header
    else
      var parts := Split(header.value, ' ');
      if ' ' !in header.value then
        SplitNone(header.value, ' ');
        None
      else
        Some(parts[1])
  }

  function Denied(status: int, text: string): Step<JsValue> {
    Respond(Reply(status, Str(text)))
  }

  const ROLE_DENIED := "Access Denied: Only frontdesk managers can access this resource."
  const GYM_DENIED := "Access Denied: Not authorized for this gym."

  /** The gym the request is about: the route's `gymId`, else the body's; reading a missing body throws. */
  function RequestedGym(params: JsObject, body: JsValue): Option<JsValue> {
    var fromParams := if "gymId" in params then params["gymId"] else Undefined;
    if Truthy(fromParams) then Some(fromParams)
    else if body.Undefined? || body.Null? then None
    else Some(Prop(body, "gymId"))
  }

  /**
   * `authorizeFrontdesk`: a missing token, a rejected token, an empty
   * payload, and a throw while reading the request answer 401; a role other
   * than `staff` answers 403, and so does a staff user assigned to another
   * gym than the one requested.
   */
  function AuthorizeFrontdesk(header: Option<string>, verify: Verifier, params: JsObject, body: JsValue)
    : (r: Step<JsValue>)
    ensures NoToken(FrontdeskToken(header)) ==> r == Denied(401, "Unauthorized: No token provided.")
    ensures !NoToken(FrontdeskToken(header)) && verify(FrontdeskToken(header).value).None? ==>
              r == Denied(401, "Unauthorized: Invalid token.")
    ensures !NoToken(FrontdeskToken(header)) && verify(FrontdeskToken(header).value).Some?
            && !Truthy(verify(FrontdeskToken(header).value).value) ==>
              r == Denied(401, "Unauthorized: No user information found.")
    ensures r.Continue? ==>
              && !NoToken(FrontdeskToken(header)) && verify(FrontdeskToken(header).value) == Some(r.value)
              && Truthy(r.value) && Prop(r.value, "role") == Str("staff")
    ensures r.Respond? ==> r.reply.status in {401, 403}
  {
    var token := FrontdeskToken(header);
    if NoToken(token) then Denied(401, "Unauthorized: No token provided.")
    else
      match verify(token.value)
      case None => Denied(401, "Unauthorized: Invalid token.")
      case Some(user) =>
        if !Truthy(user) then Denied(401, "Unauthorized: No user information found.")
        else if Prop(user, "role") != Str("staff") then Denied(403, ROLE_DENIED)
        else
          match RequestedGym(params, body)
          case None => Denied(401, "Unauthorized: Invalid token.")
          case Some(requested) =>
            if Truthy(requested) && Truthy(Prop(user, "gymId")) && Prop(user, "gymId") != requested then
              Denied(403, GYM_DENIED)
            else Continue(user)
  }

  /**
   * For a verified, non-empty payload: any role other than `staff` is refused
   * with 403; a staff user is refused for the gym exactly when both the
   * requested gym and the user's gym are present and differ.
   */
  lemma FrontdeskDecision(header: Option<string>, verify: Verifier, params: JsObject, body: JsValue)
    requires !NoToken(FrontdeskToken(header))
    requires verify(FrontdeskToken(header).value).Some?
    requires Truthy(verify(FrontdeskToken(header).value).value)
    ensures var user := verify(FrontdeskToken(header).value).value;
            Prop(user, "role") != Str("staff") ==>
              AuthorizeFrontdesk(header, verify, params, body) == Denied(403, ROLE_DENIED)
    ensures var user := verify(FrontdeskToken(header).value).value;
            Prop(user, "role") == Str("staff") && RequestedGym(params, body).Some? ==>
              (AuthorizeFrontdesk(header, verify, params, body) == Denied(403, GYM_DENIED) <==>
               Truthy(RequestedGym(params, body).value) && Truthy(Prop(user, "gymId"))
               && Prop(user, "gymId") != RequestedGym(params, body).value)
    ensures var user := verify(FrontdeskToken(header).value).value;
            AuthorizeFrontdesk(header, verify, params, body).Continue? ==>
              Prop(user, "role") == Str("staff") && AuthorizeFrontdesk(header, verify, params, body).value == user
  {
  }

  /** The comparison is strict: gym 5 in the token does not match gym `"5"` in the route. */
  lemma GymComparedStrictly(user: JsValue, header: Option<string>, verify: Verifier, body: JsValue)
    requires !NoToken(FrontdeskToken(header))
    requires verify(FrontdeskToken(header).value) == Some(user)
    requires user == Obj(map["role" := Str("staff"), "gymId" := Num(5.0)])
    ensures AuthorizeFrontdesk(header, verify, map["gymId" := Str("5")], body) == Denied(403, GYM_DENIED)
  {
    assert Prop(user, "gymId") == Num(5.0);
  }

  /** Without a route gym, a request with no body at all fails as if the token were invalid. */
  lemma MissingBodyReadsAsInvalidToken(header: Option<string>, verify: Verifier)
    requires !NoToken(FrontdeskToken(header))
    requires verify(FrontdeskToken(header).value).Some?
    requires Prop(verify(FrontdeskToken(header).value).value, "role") == Str("staff")
    ensures AuthorizeFrontdesk(header, verify, map[], Undefined) == Denied(401, "Unauthorized: Invalid token.")
  {
  }
}
