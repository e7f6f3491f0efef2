/** The slice of Django REST framework that the core talks to: JSON-like response data,
    the mutable Response object with its cookies, the exceptions the views raise, the
    requesting user, and the framework's stock `IsAuthenticatedOrReadOnly` permission. */
module Http {
  import opened Common

  /** Python values that end up in a response body (floats are not used by the core). */
  datatype Json =
    | JNull
    | JBool(b: bool)
    | JInt(i: int)
    | JStr(s: string)
    | JList(items: seq<Json>)
    | JObject(fields: map<string, Json>)

  /** Python truthiness: None, False, 0, "", [] and {} are false, everything else true. */
  predicate Truthy(j: Json)
  {
    match j
    case JNull => false
    case JBool(b) => b
    case JInt(i) => i != 0
    case JStr(s) => s != ""
    case JList(items) => items != []
    case JObject(fields) => fields != map[]
  }

  /** One `Set-Cookie` entry as `HttpResponse.set_cookie` records it; `sameSite` is None
      when the argument is left at Django's default. */
  datatype Cookie = Cookie(value: string, httpOnly: bool, secure: bool, sameSite: Option<string>)

  /** Status codes used by the core. */
  const HTTP_200_OK := 200
  const HTTP_201_CREATED := 201
  const HTTP_400_BAD_REQUEST := 400
  const HTTP_401_UNAUTHORIZED := 401
  const HTTP_409_CONFLICT := 409

  /** A DRF `Response`: its data dictionary and cookies are updated in place by the code
      that holds it. */
  class Response {
    var data: Json
    var status: int
    var cookies: map<string, Cookie>

    constructor (data: Json, status: int)
      ensures this.data == data && this.status == status && cookies == map[]
    {
      this.data := data;
      this.status := status;
      this.cookies := map[];
    }

    /** `response.set_cookie(key, value, ...)`: adds or replaces the cookie `key`. */
    method SetCookie(key: string, value: string, httpOnly: bool, secure: bool, sameSite: Option<string>)
      modifies this
      ensures cookies == old(cookies)[key := Cookie(value, httpOnly, secure, sameSite)]
      ensures data == old(data) && status == old(status)
    {
      cookies := cookies[key := Cookie(value, httpOnly, secure, sameSite)];
    }
  }

  /** The exceptions that leave the core's code paths. Only the first three are DRF
      `APIException`s; the others are plain Python errors that the views do not catch. */
  datatype Exception =
    | ValidationError(detail: Json)
    | NotAuthenticated
    | ApiException(message: string)
    | TokenError(message: string)
    | AttributeError
    | IndexError
    | TypeError
    | DoesNotExist
    | KeyError
    | IntegrityError
    | NotImplementedError
  {
    predicate IsApiException()
    {
      ValidationError? || NotAuthenticated? || ApiException?
    }
  }

  /** What a view hands back to the dispatcher: a response, or an exception it raised. */
  datatype ViewOutcome = Respond(response: Response) | Raise(exc: Exception)

  /** `request.user`: an authenticated user, or Django's AnonymousUser, which equals no user. */
  datatype Requester = Anonymous | Member(id: UserId)

  /** The parts of a request that permission checks read: the HTTP method and the user. */
  datatype Request = Request(verb: string, user: Requester)

  /** `permissions.SAFE_METHODS`. */
  predicate IsSafeMethod(verb: string)
  {
    verb == "GET" || verb == "HEAD" || verb == "OPTIONS"
  }

  /** The framework's `IsAuthenticatedOrReadOnly.has_permission`. */
  predicate IsAuthenticatedOrReadOnly(verb: string, requester: Requester)
  {
    IsSafeMethod(verb) || requester.Member?
  }
}
