/** The `create-admin` edge function: the CORS headers it answers with, and the
    gate a request passes before a new administrator is created.

    The function's calls into the authentication service and the database are
    represented by the calls it makes (`Call`) and by their replies, which the
    handler takes as a `Backend` value; `Deno.env.get("SUPABASE_URL")` is a
    parameter. The handler is a pure function from the request and those
    replies to the response and the calls made, in order. */
module CreateAdmin {
  import opened Outcomes
  import opened JsString

  /** The two origins that are always allowed: the production site and the
      preview site. */
  const ProductionOrigin: string := "https://ognjiste-ljepote-grahovo.lovable.app"
  const PreviewOrigin: string :=
    "https://id-preview--9dd23456-762a-4c2a-9073-cd553b46fa71.lovable.app"

  /** The constant `Access-Control-Allow-Headers` value. */
  const AllowedRequestHeaders: string := "authorization, x-client-info, apikey, content-type"

  const BearerPrefix: string := "Bearer "

  const MissingAuthorization: string := "Missing or invalid Authorization header"
  const InvalidToken: string := "Unauthorized: Invalid or expired token"
  const NotAnAdmin: string := "Forbidden: Only admins can create new admin users"

  // ---------------------------------------------------------------------------
  // allowed origins

  /** `.filter(Boolean)` on values that are strings or `undefined`: the
      defined, non-empty ones, in order. */
  function Truthy(xs: seq<Option<string>>): (kept: seq<string>)
    ensures forall s :: s in kept <==> Some(s) in xs && s != ""
    ensures |kept| <= |xs|
  {
    if xs == [] then []
    else if xs[0].Some? && xs[0].value != "" then [xs[0].value] + Truthy(xs[1..])
    else Truthy(xs[1..])
  }

  /** `getAllowedOrigins`: the project URL (when it is set and not empty),
      then the production and the preview origin. */
  function AllowedOrigins(supabaseUrl: Option<string>): seq<string> {
    Truthy([supabaseUrl, Some(ProductionOrigin), Some(PreviewOrigin)])
  }

  /** The list is the project URL when it is set and non-empty, followed by the
      two fixed origins, so it is never empty. */
  lemma AllowedOriginsShape(supabaseUrl: Option<string>)
    ensures supabaseUrl.Some? && supabaseUrl.value != "" ==>
      AllowedOrigins(supabaseUrl) == [supabaseUrl.value, ProductionOrigin, PreviewOrigin]
    ensures supabaseUrl == None || supabaseUrl.value == "" ==>
      AllowedOrigins(supabaseUrl) == [ProductionOrigin, PreviewOrigin]
    ensures |AllowedOrigins(supabaseUrl)| >= 2
  {
    var xs := [supabaseUrl, Some(ProductionOrigin), Some(PreviewOrigin)];
    assert |ProductionOrigin| > 0 && |PreviewOrigin| > 0;
    assert xs[1..][1..][1..] == [];
    assert Truthy(xs[1..][1..]) == [PreviewOrigin];
    assert xs[1..] == [Some(ProductionOrigin), Some(PreviewOrigin)];
    assert Truthy(xs[1..]) == [ProductionOrigin, PreviewOrigin];
  }

  // ---------------------------------------------------------------------------
  // choosing the allowed origin

  /** `s.replace(/\/$/, '')`: one `/` at the very end is removed. */
  function StripTrailingSlash(s: string): (r: string)
    ensures s == r || s == r + "/"
    ensures |s| > 0 && s[|s| - 1] == '/' <==> s == r + "/"
  {
    if |s| > 0 && s[|s| - 1] == '/' then s[..|s| - 1] else s
  }

  /** `allowed.some(a => origin.startsWith(a.replace(/\/$/, '')))` */
  function SomePrefix(origin: string, allowed: seq<string>): (found: bool)
    ensures found <==>
      exists i :: 0 <= i < |allowed| && StartsWith(origin, StripTrailingSlash(allowed[i]))
  {
    if allowed == [] then false
    else StartsWith(origin, StripTrailingSlash(allowed[0])) || SomePrefix(origin, allowed[1..])
  }

  /** The `Access-Control-Allow-Origin` value for the request's `Origin`
      header: the origin itself when it is non-empty and begins with an allowed
      entry (with one trailing `/` removed), otherwise the first allowed entry,
      or `*` when there is none. */
  function AllowOrigin(origin: Option<string>, allowed: seq<string>): (chosen: string)
    ensures chosen == "*" || chosen in allowed || origin == Some(chosen)
    ensures origin.Some? && origin.value != "" && SomePrefix(origin.value, allowed) ==>
      chosen == origin.value
    ensures origin == None || origin.value == "" || !SomePrefix(origin.value, allowed) ==>
      chosen == if allowed != [] && allowed[0] != "" then allowed[0] else "*"
  {
    if origin.Some? && origin.value != "" && SomePrefix(origin.value, allowed) then origin.value
    else if allowed != [] && allowed[0] != "" then allowed[0]
    else "*"
  }

  /** With the function's own list the chosen value is the request's origin
      or one of the allowed entries, and the fallback is the first entry. */
  lemma AllowOriginIsOriginOrAllowed(origin: Option<string>, supabaseUrl: Option<string>)
    ensures var chosen := AllowOrigin(origin, AllowedOrigins(supabaseUrl));
      chosen in AllowedOrigins(supabaseUrl) || origin == Some(chosen)
    ensures origin == None || origin.value == "" ||
            !SomePrefix(origin.value, AllowedOrigins(supabaseUrl)) ==>
      AllowOrigin(origin, AllowedOrigins(supabaseUrl)) == AllowedOrigins(supabaseUrl)[0]
  {
    AllowedOriginsShape(supabaseUrl);
    var allowed := AllowedOrigins(supabaseUrl);
    assert allowed[0] in allowed;
  }

  /** The match is a prefix test on the raw header: any origin that merely
      begins with an allowed entry is echoed back, such as an allowed host
      name followed by a further domain label. */
  lemma PrefixMatchAdmitsLongerOrigins(entry: string, rest: string, supabaseUrl: Option<string>)
    requires entry in AllowedOrigins(supabaseUrl)
    requires entry != "" && entry[|entry| - 1] != '/'
    ensures AllowOrigin(Some(entry + rest), AllowedOrigins(supabaseUrl)) == entry + rest
  {
    var allowed := AllowedOrigins(supabaseUrl);
    var i :| 0 <= i < |allowed| && allowed[i] == entry;
    assert (entry + rest)[..|entry|] == entry;
    assert StartsWith(entry + rest, StripTrailingSlash(allowed[i]));
  }

  // ---------------------------------------------------------------------------
  // headers

  /** The response headers the function sets. */
  datatype Header = AllowOriginHeader | AllowHeadersHeader | ContentTypeHeader

  /** A header's name on the wire. */
  function HeaderName(h: Header): string {
    match h
    case AllowOriginHeader => "Access-Control-Allow-Origin"
    case AllowHeadersHeader => "Access-Control-Allow-Headers"
    case ContentTypeHeader => "Content-Type"
  }

  /** `getCorsHeaders(origin)` */
  function CorsHeaders(origin: Option<string>, supabaseUrl: Option<string>): (headers: map<Header, string>)
    ensures headers.Keys == {AllowOriginHeader, AllowHeadersHeader}
    ensures headers[AllowHeadersHeader] == AllowedRequestHeaders
    ensures var chosen := headers[AllowOriginHeader];
      chosen in AllowedOrigins(supabaseUrl) || origin == Some(chosen)
  {
    AllowOriginIsOriginOrAllowed(origin, supabaseUrl);
    map[AllowOriginHeader := AllowOrigin(origin, AllowedOrigins(supabaseUrl)),
        AllowHeadersHeader := AllowedRequestHeaders]
  }

  // ---------------------------------------------------------------------------
  // the request handler

  /** The fields the handler destructures from the request body. */
  datatype Credentials = Credentials(email: Option<string>, password: Option<string>)

  /** The request as the handler reads it. `body` is the parsed JSON body, or
      the message of the error that parsing or destructuring it threw. */
  datatype HttpRequest = HttpRequest(
    httpMethod: string, origin: Option<string>, authorization: Option<string>,
    body: Result<Credentials>)

  /** A service reply: data, an error returned in the reply, or an exception
      thrown by the call. */
  datatype Reply<+T> = Data(value: T) | Error(message: string) | Threw(message: string)

  /** The replies to the four calls the handler can make. `claims` is the
      subject of the token's claims (`None` when the reply has no claims),
      `adminRole` whether an `admin` row of that user was found, `createdUser`
      the new user's id. */
  datatype Backend = Backend(
    claims: Reply<Option<string>>, adminRole: Reply<bool>,
    createdUser: Reply<string>, roleInsert: Reply<()>)

  /** A call into the authentication service or the database. */
  datatype Call =
    | GetClaims(token: string)
    | SelectAdminRole(userId: string)
    | CreateUser(email: Option<string>, password: Option<string>)
    | InsertAdminRole(userId: string)

  /** The JSON bodies the handler answers with. */
  datatype Json = ErrorJson(error: string) | SuccessJson(userId: string)

  datatype Response = Response(status: int, headers: map<Header, string>, body: Option<Json>)

  /** What handling a request comes to: the response and the calls made. */
  datatype Handled = Handled(response: Response, calls: seq<Call>)

  /** The headers of a JSON response: the CORS headers and the content type. */
  function JsonHeaders(cors: map<Header, string>): (headers: map<Header, string>)
    ensures ContentTypeHeader in headers && headers[ContentTypeHeader] == "application/json"
    ensures forall h :: h in cors && h != ContentTypeHeader ==> h in headers && headers[h] == cors[h]
  {
    cors[ContentTypeHeader := "application/json"]
  }

  /** A JSON response carrying `{ error: message }`. */
  function Failure(status: int, cors: map<Header, string>, message: string, calls: seq<Call>): Handled {
    Handled(Response(status, JsonHeaders(cors), Some(ErrorJson(message))), calls)
  }

  /** `rest`, preceded by the call `call`. */
  function After(call: Call, rest: Handled): Handled {
    Handled(rest.response, [call] + rest.calls)
  }

  /** Step 3: the user is created with the service key, then given the admin
      role. A failure of either call, returned or thrown, answers 400 with its
      message; a failed role insert leaves the user created. */
  function CreateAdminUser(creds: Credentials, cors: map<Header, string>, backend: Backend)
    : (h: Handled)
    ensures h.response.headers == JsonHeaders(cors)
    ensures |h.calls| == (if backend.createdUser.Data? then 2 else 1)
    ensures h.calls[0] == CreateUser(creds.email, creds.password)
    ensures |h.calls| == 2 ==> h.calls[1] == InsertAdminRole(backend.createdUser.value)
    ensures h.response.status in {200, 400}
    ensures h.response.status == 200 <==> backend.createdUser.Data? && backend.roleInsert.Data?
    ensures h.response.status == 200 ==>
      h.response.body == Some(SuccessJson(backend.createdUser.value))
    ensures h.response.status == 400 ==>
      h.response.body == Some(ErrorJson(
        if backend.createdUser.Data? then backend.roleInsert.message else backend.createdUser.message))
  {
    var create := CreateUser(creds.email, creds.password);
    match backend.createdUser
    case Threw(m) => Failure(400, cors, m, [create])
    case Error(m) => Failure(400, cors, m, [create])
    case Data(userId) =>
      var calls := [create, InsertAdminRole(userId)];
      match backend.roleInsert
      case Threw(m) => Failure(400, cors, m, calls)
      case Error(m) => Failure(400, cors, m, calls)
      case Data(_) => Handled(Response(200, JsonHeaders(cors), Some(SuccessJson(userId))), calls)
  }

  /** Step 2: the requester's `admin` row is looked up; a returned error or no
      row answers 403, a thrown error 400, and only a found row goes on to
      step 3. */
  function Authorize(requester: string, creds: Credentials, cors: map<Header, string>, backend: Backend)
    : (h: Handled)
    ensures h.response.headers == JsonHeaders(cors)
    ensures backend.adminRole == Data(true) ==>
      h == After(SelectAdminRole(requester), CreateAdminUser(creds, cors, backend))
    ensures backend.adminRole != Data(true) ==> h.calls == [SelectAdminRole(requester)]
    ensures backend.adminRole.Threw? ==> h.response.status == 400
    ensures backend.adminRole.Error? || backend.adminRole == Data(false) ==>
      h.response.status == 403 && h.response.body == Some(ErrorJson(NotAnAdmin))
  {
    var lookup := SelectAdminRole(requester);
    match backend.adminRole
    case Threw(m) => Failure(400, cors, m, [lookup])
    case Error(_) => Failure(403, cors, NotAnAdmin, [lookup])
    case Data(found) =>
      if found then After(lookup, CreateAdminUser(creds, cors, backend))
      else Failure(403, cors, NotAnAdmin, [lookup])
  }

  /** Step 1, after the header check: the token's claims are fetched; a
      returned error or no claims answers 401, a thrown error 400, and only
      the claims' subject goes on to step 2. */
  function Authenticate(token: string, creds: Credentials, cors: map<Header, string>, backend: Backend)
    : (h: Handled)
    ensures h.response.headers == JsonHeaders(cors)
    ensures backend.claims.Data? && backend.claims.value.Some? ==>
      h == After(GetClaims(token), Authorize(backend.claims.value.value, creds, cors, backend))
    ensures !(backend.claims.Data? && backend.claims.value.Some?) ==> h.calls == [GetClaims(token)]
    ensures backend.claims.Threw? ==> h.response.status == 400
    ensures backend.claims.Error? || backend.claims == Data(None) ==>
      h.response.status == 401 && h.response.body == Some(ErrorJson(InvalidToken))
  {
    var verify := GetClaims(token);
    match backend.claims
    case Threw(m) => Failure(400, cors, m, [verify])
    case Error(_) => Failure(401, cors, InvalidToken, [verify])
    case Data(claims) =>
      if claims.Some? then After(verify, Authorize(claims.value, creds, cors, backend))
      else Failure(401, cors, InvalidToken, [verify])
  }

  /** The handler after the CORS headers are computed. */
  function Respond(req: HttpRequest, cors: map<Header, string>, backend: Backend): (h: Handled)
    ensures h.response.status in {200, 400, 401, 403}
    // OPTIONS is answered before anything else, without a body
    ensures req.httpMethod == "OPTIONS" <==> h.response.body == None
    ensures req.httpMethod == "OPTIONS" ==> h == Handled(Response(200, cors, None), [])
    // the body is parsed before the Authorization header is looked at
    ensures req.httpMethod != "OPTIONS" && req.body.Err? ==>
      h == Failure(400, cors, req.body.message, [])
    ensures req.httpMethod != "OPTIONS" && req.body.Ok? &&
            (req.authorization == None || !StartsWith(req.authorization.value, BearerPrefix)) ==>
      h == Failure(401, cors, MissingAuthorization, [])
    // the calls made are a prefix of: claims of the token, the requester's
    // admin row, user creation, role insert; each only after the one before passed
    ensures |h.calls| <= 4
    ensures |h.calls| >= 1 ==>
      req.httpMethod != "OPTIONS" && req.body.Ok? && req.authorization.Some? &&
      StartsWith(req.authorization.value, BearerPrefix) &&
      h.calls[0] == GetClaims(req.authorization.value[|BearerPrefix|..])
    ensures |h.calls| >= 2 ==>
      backend.claims.Data? && backend.claims.value.Some? &&
      h.calls[1] == SelectAdminRole(backend.claims.value.value)
    ensures |h.calls| >= 3 ==>
      backend.adminRole == Data(true) &&
      h.calls[2] == CreateUser(req.body.value.email, req.body.value.password)
    ensures |h.calls| >= 4 ==>
      backend.createdUser.Data? && h.calls[3] == InsertAdminRole(backend.createdUser.value)
    // refusals stop before user creation
    ensures |h.calls| >= 3 ==> h.response.status in {200, 400}
    // success is the created user's id, after both steps succeeded
    ensures h.response.status == 200 && h.response.body != None ==>
      |h.calls| == 4 && backend.roleInsert.Data? &&
      h.response.body == Some(SuccessJson(backend.createdUser.value))
    // every response carries the CORS headers, JSON ones also the content type
    ensures h.response.headers == if req.httpMethod == "OPTIONS" then cors else JsonHeaders(cors)
  {
    if req.httpMethod == "OPTIONS" then Handled(Response(200, cors, None), [])
    else if req.body.Err? then Failure(400, cors, req.body.message, [])
    else if req.authorization == None || !StartsWith(req.authorization.value, BearerPrefix) then
      Failure(401, cors, MissingAuthorization, [])
    else
      var token := ReplaceFirst(req.authorization.value, BearerPrefix, "");
      assert token == req.authorization.value[|BearerPrefix|..];
      Authenticate(token, req.body.value, cors, backend)
  }

  /** The `Deno.serve` handler: the CORS headers for the request's origin, then
      the decision sequence. */
  function Serve(req: HttpRequest, supabaseUrl: Option<string>, backend: Backend): (h: Handled)
    ensures AllowHeadersHeader in h.response.headers &&
      h.response.headers[AllowHeadersHeader] == AllowedRequestHeaders
    ensures AllowOriginHeader in h.response.headers &&
      var chosen := h.response.headers[AllowOriginHeader];
      chosen in AllowedOrigins(supabaseUrl) || req.origin == Some(chosen)
  {
    var cors := CorsHeaders(req.origin, supabaseUrl);
    assert AllowOriginHeader in cors && AllowHeadersHeader in cors;
    Respond(req, cors, backend)
  }

  // ---------------------------------------------------------------------------
  // what the gate guarantees

  /** Some call creates a user. */
  predicate CreatesUser(calls: seq<Call>) {
    exists k :: 0 <= k < |calls| && calls[k].CreateUser?
  }

  /** Some call grants the admin role. */
  predicate GrantsAdmin(calls: seq<Call>) {
    exists k :: 0 <= k < |calls| && calls[k].InsertAdminRole?
  }

  /** In a call sequence shaped as the handler makes it, user creation is the
      third call and the role grant the fourth. */
  lemma CallPositions(calls: seq<Call>)
    requires |calls| <= 4
    requires |calls| >= 1 ==> calls[0].GetClaims?
    requires |calls| >= 2 ==> calls[1].SelectAdminRole?
    requires |calls| >= 3 ==> calls[2].CreateUser?
    requires |calls| >= 4 ==> calls[3].InsertAdminRole?
    ensures CreatesUser(calls) <==> |calls| >= 3
    ensures GrantsAdmin(calls) <==> |calls| == 4
  {
    if CreatesUser(calls) {
      var k :| 0 <= k < |calls| && calls[k].CreateUser?;
      assert k == 2;
    }
    if GrantsAdmin(calls) {
      var k :| 0 <= k < |calls| && calls[k].InsertAdminRole?;
      assert k == 3;
    }
    if |calls| >= 3 { assert calls[2].CreateUser?; }
    if |calls| == 4 { assert calls[3].InsertAdminRole?; }
  }

  /** A user is created only for a request with a `Bearer` token whose claims
      name a requester who has an `admin` row, and with the requested email
      and password. */
  lemma NoUserWithoutAdmin(req: HttpRequest, cors: map<Header, string>, backend: Backend)
    requires CreatesUser(Respond(req, cors, backend).calls)
    ensures req.httpMethod != "OPTIONS" && req.body.Ok?
    ensures req.authorization.Some? && StartsWith(req.authorization.value, BearerPrefix)
    ensures backend.claims.Data? && backend.claims.value.Some?
    ensures backend.adminRole == Data(true)
    ensures Respond(req, cors, backend).calls[2] ==
      CreateUser(req.body.value.email, req.body.value.password)
  {
    CallPositions(Respond(req, cors, backend).calls);
  }

  /** The admin role is granted only to the user just created, after its
      creation succeeded. */
  lemma AdminRoleOnlyForCreatedUser(req: HttpRequest, cors: map<Header, string>, backend: Backend)
    requires GrantsAdmin(Respond(req, cors, backend).calls)
    ensures CreatesUser(Respond(req, cors, backend).calls)
    ensures backend.createdUser.Data?
    ensures Respond(req, cors, backend).calls[3] == InsertAdminRole(backend.createdUser.value)
  {
    CallPositions(Respond(req, cors, backend).calls);
  }

  /** A request refused with 401 or 403 creates no user and grants no role. */
  lemma RefusalsChangeNothing(req: HttpRequest, cors: map<Header, string>, backend: Backend)
    requires Respond(req, cors, backend).response.status in {401, 403}
    ensures !CreatesUser(Respond(req, cors, backend).calls)
    ensures !GrantsAdmin(Respond(req, cors, backend).calls)
  {
    CallPositions(Respond(req, cors, backend).calls);
  }

  /** When the role insert fails after the user was created, the answer is
      400 with the insert's message, and the user stays created without the
      role. */
  lemma FailedRoleInsertLeavesUser(req: HttpRequest, cors: map<Header, string>, backend: Backend)
    requires req.httpMethod != "OPTIONS" && req.body.Ok?
    requires req.authorization.Some? && StartsWith(req.authorization.value, BearerPrefix)
    requires backend.claims.Data? && backend.claims.value.Some?
    requires backend.adminRole == Data(true)
    requires backend.createdUser.Data? && !backend.roleInsert.Data?
    ensures var h := Respond(req, cors, backend);
      h.response.status == 400 && h.response.body == Some(ErrorJson(backend.roleInsert.message)) &&
      CreatesUser(h.calls) && !GrantsAdmin(h.calls[..3]) && |h.calls| == 4
  {
    var h := Respond(req, cors, backend);
    CallPositions(h.calls);
    CallPositions(h.calls[..3]);
  }
}
