/** UploadR's `UploadController`: how each endpoint turns the caller's
    claims and route/query values into a call on the upload service, and the
    service's answer into an HTTP result, plus the authorization tier each
    endpoint demands. The upload service itself is a parameter: its
    storage, hashing and lookups are outside this model. */
module UploadR {
  import opened DotNet

  /** A claim of the authenticated principal. */
  datatype Claim = Claim(kind: string, value: string)

  /** `ClaimTypes.NameIdentifier`. */
  const NameIdentifier := "http://schemas.xmlsoap.org/ws/2005/05/identity/claims/nameidentifier"

  /** `ResultCode`, as returned by the delete service. The enum's other
      members (and any out-of-range value) are `Other`. */
  datatype ResultCode = Ok | NotFound | Unauthorized | Other(value: int)

  /** The action results the controller returns; `T` is the JSON payload
      (`()` for endpoints that never answer with JSON). */
  datatype ActionResult<T> =
    | OkResult
    | BadRequestResult
    | UnauthorizedResult
    | NotFoundResult
    | JsonResult(value: T)
    | FileResult(content: seq<byte>, contentType: string)

  function StatusCode<T>(r: ActionResult<T>): (code: int)
    ensures code == 200 <==> r.OkResult? || r.JsonResult? || r.FileResult?
    ensures code == 400 <==> r.BadRequestResult?
    ensures code == 401 <==> r.UnauthorizedResult?
    ensures code == 404 <==> r.NotFoundResult?
  {
    match r
    case OkResult => 200
    case BadRequestResult => 400
    case UnauthorizedResult => 401
    case NotFoundResult => 404
    case JsonResult(_) => 200
    case FileResult(_, _) => 200
  }

  /** `User.Claims.FirstOrDefault(x => x.Type == ClaimTypes.NameIdentifier)?.Value`:
      the value of the first NameIdentifier claim, or null when there is none. */
  function OwnerClaim(claims: seq<Claim>): (r: Option<string>)
    ensures r.None? <==> forall i | 0 <= i < |claims| :: claims[i].kind != NameIdentifier
    ensures r.Some? ==> exists i | 0 <= i < |claims| ::
      && claims[i].kind == NameIdentifier
      && claims[i].value == r.value
      && forall j | 0 <= j < i :: claims[j].kind != NameIdentifier
  {
    if |claims| == 0 then None
    else if claims[0].kind == NameIdentifier then Some(claims[0].value)
    else
      var r := OwnerClaim(claims[1..]);
      assert forall i | 1 <= i < |claims| :: claims[i] == claims[1..][i - 1];
      r
  }

  // ------------------------------------------------------------ endpoints

  /** `UploadAsync`: the service gets the owner claim, the posted files and
      the form's password, and its per-file report is returned as JSON. */
  function UploadFiles<F, R>(claims: seq<Claim>, files: seq<F>, password: Option<string>,
                             service: (Option<string>, seq<F>, Option<string>) -> R): (r: ActionResult<R>)
    ensures r.JsonResult? && StatusCode(r) == 200
    ensures r.value == service(OwnerClaim(claims), files, password)
  {
    JsonResult(service(OwnerClaim(claims), files, password))
  }

  /** The `ResultCode` switch of `DeleteUploadAsync`. */
  function DeleteResult(code: ResultCode): (r: ActionResult<()>)
    ensures StatusCode(r) == 200 <==> code == Ok
    ensures StatusCode(r) == 401 <==> code == Unauthorized
    ensures StatusCode(r) == 400 <==> code != Ok && code != Unauthorized
    ensures r.OkResult? || r.BadRequestResult? || r.UnauthorizedResult?
  {
    match code
    case Ok => OkResult
    case NotFound => BadRequestResult
    case Unauthorized => UnauthorizedResult
    case Other(_) => BadRequestResult
  }

  /** `DeleteUploadAsync`: the owner claim and the route's filename go to the
      service; its code decides the status. */
  function DeleteUpload(claims: seq<Claim>, filename: string,
                        service: (Option<string>, string) -> ResultCode): (r: ActionResult<()>)
    ensures StatusCode(r) == 200 <==> service(OwnerClaim(claims), filename) == Ok
    ensures StatusCode(r) == 401 <==> service(OwnerClaim(claims), filename) == Unauthorized
    ensures StatusCode(r) == 400 <==> service(OwnerClaim(claims), filename) !in {Ok, Unauthorized}
  {
    DeleteResult(service(OwnerClaim(claims), filename))
  }

  /** `GetUploadDetailsAsync`: a null service result is 404, anything else JSON. */
  function UploadDetails<D>(filename: string, service: string -> Option<D>): (r: ActionResult<D>)
    ensures service(filename).None? <==> r == NotFoundResult
    ensures service(filename).Some? ==> r == JsonResult(service(filename).value)
  {
    match service(filename)
    case None => NotFoundResult
    case Some(d) => JsonResult(d)
  }

  /** The null check shared by both uploads-listing endpoints: 400 on null. */
  function UploadsListing<L>(result: Option<L>): (r: ActionResult<L>)
    ensures result.None? <==> r == BadRequestResult
    ensures result.Some? ==> r == JsonResult(result.value)
  {
    match result
    case None => BadRequestResult
    case Some(l) => JsonResult(l)
  }

  /** `GetUserUploadsDetailsAsync(userId)` (Admin tier): lists the uploads of
      the user named in the route. */
  function UserUploads<L>(userId: string, service: Option<string> -> Option<L>): (r: ActionResult<L>)
    ensures r.BadRequestResult? <==> service(Some(userId)).None?
    ensures r.JsonResult? <==> service(Some(userId)).Some?
    ensures r.JsonResult? ==> r.value == service(Some(userId)).value
  {
    UploadsListing(service(Some(userId)))
  }

  /** `GetUserUploadsDetailsAsync()` (User tier): lists the caller's own
      uploads, keyed by the caller's owner claim (null when it has none). */
  function OwnUploads<L>(claims: seq<Claim>, service: Option<string> -> Option<L>): (r: ActionResult<L>)
    ensures r.BadRequestResult? <==> service(OwnerClaim(claims)).None?
    ensures r.JsonResult? <==> service(OwnerClaim(claims)).Some?
    ensures r.JsonResult? ==> r.value == service(OwnerClaim(claims)).value
  {
    UploadsListing(service(OwnerClaim(claims)))
  }

  /** What the content service hands back: the bytes (empty when refused)
      and a content type (null or blank when the upload does not exist). */
  datatype UploadContent = UploadContent(content: seq<byte>, contentType: Option<string>)

  /** One `key=value` pair of the query string, already URL-decoded, in the
      order it appears in the request. */
  datatype QueryPair = QueryPair(key: string, value: string)

  /** The query key the content endpoint binds its password from. */
  const PasswordKey := "password"

  /** ASCII upper-case letters to lower case; every other character is kept. */
  function AsciiLower(c: char): char {
    if 'A' <= c <= 'Z' then (c as int + 32) as char else c
  }

  /** Query keys are compared ignoring the case of ASCII letters. */
  predicate SameKey(a: string, b: string) {
    |a| == |b| && forall i | 0 <= i < |a| :: AsciiLower(a[i]) == AsciiLower(b[i])
  }

  /** The first value given for the key `name`, or null when no key matches.
      A repeated key keeps all its values in order, and binding a single
      string takes the first of them. */
  function FirstQueryValue(query: seq<QueryPair>, name: string): (r: Option<string>)
    ensures r.None? <==> forall i | 0 <= i < |query| :: !SameKey(query[i].key, name)
    ensures r.Some? ==> exists i | 0 <= i < |query| ::
      && SameKey(query[i].key, name)
      && query[i].value == r.value
      && forall j | 0 <= j < i :: !SameKey(query[j].key, name)
  {
    if |query| == 0 then None
    else if SameKey(query[0].key, name) then Some(query[0].value)
    else
      var r := FirstQueryValue(query[1..], name);
      assert forall i | 1 <= i < |query| :: query[i] == query[1..][i - 1];
      r
  }

  /** `[FromQuery(Name = "password")] string password = null`: the first
      value of the `password` key, in any letter case. Binding a string turns
      an empty or white-space value into null, as it does a missing key. */
  function PasswordParam(query: seq<QueryPair>): (p: Option<string>)
    ensures p.Some? ==> exists i | 0 <= i < |query| ::
      && SameKey(query[i].key, PasswordKey)
      && query[i].value == p.value
      && (exists k | 0 <= k < |p.value| :: !IsWhiteSpace(p.value[k]))
      && forall j | 0 <= j < i :: !SameKey(query[j].key, PasswordKey)
    ensures p.None? <==>
      || (forall i | 0 <= i < |query| :: !SameKey(query[i].key, PasswordKey))
      || exists i | 0 <= i < |query| ::
        && SameKey(query[i].key, PasswordKey)
        && (forall k | 0 <= k < |query[i].value| :: IsWhiteSpace(query[i].value[k]))
        && forall j | 0 <= j < i :: !SameKey(query[j].key, PasswordKey)
  {
    var v := FirstQueryValue(query, PasswordKey);
    if IsNullOrWhiteSpace(v) then None else v
  }

  /** `MediaTypeHeaderValue.Parse(type).ToString()`, which `File(content, type)`
      stores as the result's content type: the type as the header parser
      prints it back (spacing normalised, e.g. "text/plain;charset=utf-8"
      becomes "text/plain; charset=utf-8"), or null when the parse throws. */
  type MediaTypeFormat = string -> Option<string>

  /** `File(content, type)` does not throw: non-empty content comes with a
      non-blank type that parses as a media type. */
  predicate Servable(answer: UploadContent, format: MediaTypeFormat) {
    |answer.content| != 0 ==> !IsNullOrWhiteSpace(answer.contentType) && format(answer.contentType.value).Some?
  }

  /** The three outcomes of `GetUploadContentAsync` for a service answer:
      the file when there are bytes, otherwise 404 for a blank type and 401
      for a non-blank one. `File(content, type)` throws for a null, blank or
      unparseable type, so only servable answers are covered. */
  function ContentResult(answer: UploadContent, format: MediaTypeFormat): (r: ActionResult<()>)
    requires Servable(answer, format)
    ensures r.FileResult? <==> |answer.content| != 0
    ensures r.FileResult? ==> r.content == answer.content && Some(r.contentType) == format(answer.contentType.value)
    ensures r.NotFoundResult? <==> |answer.content| == 0 && IsNullOrWhiteSpace(answer.contentType)
    ensures r.UnauthorizedResult? <==> |answer.content| == 0 && !IsNullOrWhiteSpace(answer.contentType)
  {
    if |answer.content| != 0 then FileResult(answer.content, format(answer.contentType.value).value)
    else if IsNullOrWhiteSpace(answer.contentType) then NotFoundResult
    else UnauthorizedResult
  }

  /** `GetUploadContentAsync` (no credential needed): the route's filename and
      the bound `password` go to the service. */
  function ContentDownload(filename: string, query: seq<QueryPair>,
                          service: (string, Option<string>) -> UploadContent,
                          format: MediaTypeFormat): (r: ActionResult<()>)
    requires Servable(service(filename, PasswordParam(query)), format)
    ensures var a := service(filename, PasswordParam(query));
      && (r.FileResult? <==> |a.content| != 0)
      && (r.FileResult? ==> r.content == a.content && Some(r.contentType) == format(a.contentType.value))
      && (r.NotFoundResult? <==> |a.content| == 0 && IsNullOrWhiteSpace(a.contentType))
      && (r.UnauthorizedResult? <==> |a.content| == 0 && !IsNullOrWhiteSpace(a.contentType))
  {
    ContentResult(service(filename, PasswordParam(query)), format)
  }

  // ----------------------------------------------------------- tier table

  datatype Endpoint =
    | PostUpload
    | DeleteByName
    | GetDetails
    | GetUserUploads
    | GetOwnUploads
    | GetContent

  /** The authorization attribute on an endpoint: none, a bare `[Authorize]`
      (the default policy), or `[Authorize(Roles = "Admin")]`. */
  datatype AuthorizeAttribute = NoAttribute | AuthorizeDefault | AuthorizeAdmin

  /** The attributes as declared on the controller's actions. */
  function AttributeOf(e: Endpoint): (a: AuthorizeAttribute)
    ensures a == NoAttribute <==> e == GetContent
    ensures a == AuthorizeAdmin <==> e == GetUserUploads
    ensures a == AuthorizeDefault <==> e in {PostUpload, DeleteByName, GetDetails, GetOwnUploads}
  {
    match e
    case PostUpload => AuthorizeDefault
    case DeleteByName => AuthorizeDefault
    case GetDetails => AuthorizeDefault
    case GetUserUploads => AuthorizeAdmin
    case GetOwnUploads => AuthorizeDefault
    case GetContent => NoAttribute
  }

  /** The caller as the authorization middleware sees it. */
  datatype Caller = Anonymous | Authenticated(isAdmin: bool) {
    /** The caller's tier: anonymous callers are Unverified. */
    function Tier(): Tier {
      match this
      case Anonymous => Unverified
      case Authenticated(isAdmin) => if isAdmin then AdminTier else UserTier
    }
  }

  /** Whether a caller passes an attribute: no attribute lets everyone
      through, `[Authorize]` runs the default policy (the User requirement,
      which any authenticated caller meets), and `Roles = "Admin"` replaces
      that policy with the Admin role check. */
  predicate Satisfies(c: Caller, a: AuthorizeAttribute) {
    match a
    case NoAttribute => true
    case AuthorizeDefault => c.Authenticated?
    case AuthorizeAdmin => c.Authenticated? && c.isAdmin
  }

  /** A caller may reach an endpoint when it passes the endpoint's attribute. */
  predicate Allowed(e: Endpoint, c: Caller) {
    Satisfies(c, AttributeOf(e))
  }

  /** The trust tiers, ordered Unverified < User < Admin. */
  datatype Tier = Unverified | UserTier | AdminTier {
    function Rank(): (n: nat)
      ensures n <= 2
    {
      match this
      case Unverified => 0
      case UserTier => 1
      case AdminTier => 2
    }
  }

  /** The default policy is the User requirement. */
  const DefaultPolicyTier := UserTier

  /** The tier an attribute demands. */
  function DemandedTier(a: AuthorizeAttribute): (t: Tier)
    ensures a.NoAttribute? <==> t == Unverified
    ensures a.AuthorizeDefault? <==> t == DefaultPolicyTier
    ensures a.AuthorizeAdmin? <==> t == AdminTier
  {
    match a
    case NoAttribute => Unverified
    case AuthorizeDefault => DefaultPolicyTier
    case AuthorizeAdmin => AdminTier
  }

  function RequiredTier(e: Endpoint): (t: Tier)
    ensures t == AdminTier <==> e == GetUserUploads
    ensures t == Unverified <==> e == GetContent
    ensures t == UserTier <==> e !in {GetUserUploads, GetContent}
  {
    DemandedTier(AttributeOf(e))
  }
}
