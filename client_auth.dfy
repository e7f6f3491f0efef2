/** frontend/src/app/api/auth.service.ts: the client's access-token state. localStorage is
    a map, absent when the page has no window; the HTTP client is left out, so `Login` and
    `Register` return the request they send, and `OnLoginResponse` is what the `tap` does
    when the login response arrives. */
module ClientAuth {
  import opened Common

  const AccessTokenKey: string := "access_token"

  /** A POST the service hands to the HTTP client. */
  datatype PostRequest = PostRequest(url: string, body: map<string, string>)

  class AuthService {
    var token: string
    var storage: Option<map<string, string>>
    const api: string

    /** The constructor adopts a stored, non-empty access token. */
    constructor (storage: Option<map<string, string>>, api: string)
      ensures this.storage == storage && this.api == api
      ensures storage.Some? && AccessTokenKey in storage.value && storage.value[AccessTokenKey] != "" ==>
        token == storage.value[AccessTokenKey] && IsAuthenticated()
      ensures !(storage.Some? && AccessTokenKey in storage.value && storage.value[AccessTokenKey] != "") ==>
        token == "" && IsGuest()
    {
      this.storage := storage;
      this.api := api;
      this.token := "";
      if storage.Some? && AccessTokenKey in storage.value && storage.value[AccessTokenKey] != "" {
        this.token := storage.value[AccessTokenKey];
      }
    }

    /** `isAuthenticated`: the token is truthy. */
    function IsAuthenticated(): bool
      reads this
    {
      token != ""
    }

    /** `isGuest`. */
    function IsGuest(): (guest: bool)
      reads this
      ensures guest <==> token == ""
    {
      !IsAuthenticated()
    }

    /** `login(email, password)`: the request; nothing changes until the response. */
    method Login(email: string, password: string) returns (request: PostRequest)
      ensures request == PostRequest(api + "/login/", map["email" := email, "password" := password])
    {
      return PostRequest(api + "/login/", map["email" := email, "password" := password]);
    }

    /** The `tap` on a successful login response: the access token is stored (when there is
        storage) and adopted. */
    method OnLoginResponse(accessToken: string)
      modifies this
      ensures token == accessToken
      ensures old(storage).None? ==> storage.None?
      ensures old(storage).Some? ==> storage == Some(old(storage).value[AccessTokenKey := accessToken])
      ensures IsAuthenticated() <==> accessToken != ""
    {
      if storage.Some? {
        storage := Some(storage.value[AccessTokenKey := accessToken]);
      }
      token := accessToken;
    }

    /** `register(dto)`: the request only; token and storage are untouched. */
    method Register(dto: map<string, string>) returns (request: PostRequest)
      ensures request == PostRequest(api + "/register/", dto)
    {
      return PostRequest(api + "/register/", dto);
    }
  }

  /** A service built over the storage a login response left behind starts authenticated
      with that token, provided the token is non-empty. */
  method ReloadAfterLogin(service: AuthService, accessToken: string) returns (reloaded: AuthService)
    requires service.storage.Some? && accessToken != ""
    modifies service
    ensures reloaded.token == accessToken && reloaded.IsAuthenticated()
  {
    service.OnLoginResponse(accessToken);
    reloaded := new AuthService(service.storage, service.api);
  }
}
