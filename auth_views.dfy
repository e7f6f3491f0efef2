/** backend/users/views/auth_views.py: the login, register, refresh and logout endpoints.
    Each view is a method that builds the Response the endpoint returns, or reports the
    exception that leaves it; the token state is a `TokenStore`, the user table a
    `UserTable`, and the framework's field checks, `authenticate`, the clock and the text of
    newly signed tokens are inputs. */
module AuthViews {
  import opened Common
  import opened Strings
  import opened Http
  import opened GlobalFunctions
  import opened UserSerializers
  import opened Tokens

  /** `responseMessages.LOGIN_MESSAGE`, as the view's schema example shows it. */
  const LoginMessage: string := "User logged in successfully"
  const LoginFailedDetail: string := "An internal error has occurred. Please try again later."
  const RegisteredMessage: string := "User registered successfully"
  const ConflictMessage: string := "User with this email already exists."
  const RefreshFailedDetail: string := "An internal error has occurred."
  const LoggedOutDetail: string := "User logged out successfully."
  const RefreshCookie: string := "refresh_token"

  /** The JSON form of a serializer's `errors`. */
  function DetailJson(detail: ErrorDetail): (j: Json)
    ensures j.JObject? && j.fields.Keys == detail.Keys
    ensures forall k :: k in detail ==>
      j.fields[k].JList? && |j.fields[k].items| == |detail[k]| &&
      forall i :: 0 <= i < |detail[k]| ==> j.fields[k].items[i] == JStr(detail[k][i])
  {
    JObject(map k | k in detail :: JList(seq(|detail[k]|, i requires 0 <= i < |detail[k]| => JStr(detail[k][i]))))
  }

  /** The register view's test for a conflict: some `email` error, lowercased, contains
      "unique". */
  predicate IsUniqueConflict(detail: ErrorDetail): (b: bool)
    ensures b <==> "email" in detail && exists m :: m in detail["email"] && ReadsAsUnique(m)
  {
    "email" in detail && exists i :: 0 <= i < |detail["email"]| && ReadsAsUnique(detail["email"][i])
  }

  /** `"unique" in str(error).lower()`: "unique" occurs somewhere in the lowercased text. */
  predicate ReadsAsUnique(message: string): (b: bool)
    ensures b <==> Occurs(Lower(message), "unique")
  {
    ContainsOccurs(Lower(message), "unique");
    Contains(Lower(message), "unique")
  }

  /** A string lacking one of `sub`'s characters does not contain `sub`. */
  lemma MissingCharNotContained(s: string, sub: string, c: char)
    requires c in sub && c !in s
    ensures !Contains(s, sub)
  {
  }

  /** ASCII lowercasing produces a 'q' only from 'q' or 'Q'. */
  lemma LowerHasNoQ(s: string)
    requires 'q' !in s && 'Q' !in s
    ensures 'q' !in Lower(s)
  {
    forall i | 0 <= i < |s| ensures Lower(s)[i] != 'q' {
      assert s[i] != 'q' && s[i] != 'Q';
    }
  }

  /** A message without the letter q never reads as a conflict. */
  lemma NoQNoConflict(message: string)
    requires 'q' !in message && 'Q' !in message
    ensures !ReadsAsUnique(message)
  {
    LowerHasNoQ(message);
    assert "unique"[3] == 'q';
    MissingCharNotContained(Lower(message), "unique", 'q');
  }

  /** The `unique` message Django gives the User model's e-mail field, which the framework's
      uniqueness validator reports before the `validate_email` hook runs. */
  const ModelUniqueMessage: string := "User with this email already exists."

  /** The framework's duplicate-address message has no letter q. */
  lemma ModelUniqueMessageLacksQ()
    ensures 'q' !in ModelUniqueMessage && 'Q' !in ModelUniqueMessage
  {
  }

  /** Nor has the serializer's. */
  lemma EmailTakenMessageLacksQ()
    ensures 'q' !in EmailTakenMessage && 'Q' !in EmailTakenMessage
  {
  }

  /** A duplicate address leaves exactly one message under `email`: the framework's when
      its uniqueness validator reported, the hook's otherwise. */
  lemma DuplicateEmailDetail(fieldErrors: ErrorDetail, emails: set<string>, payload: map<string, string>)
    requires "email" in payload && Strip(payload["email"]) in emails
    requires "email" in fieldErrors ==> fieldErrors["email"] == [ModelUniqueMessage]
    ensures RegisterIsValid(fieldErrors, emails, payload).Failure?
    ensures "email" in RegisterIsValid(fieldErrors, emails, payload).error
    ensures RegisterIsValid(fieldErrors, emails, payload).error["email"] ==
      [if "email" in fieldErrors then ModelUniqueMessage else EmailTakenMessage]
  {
  }

  /** An `email` entry holding one message that does not read as "unique" is no conflict. */
  lemma SingleMessageNoConflict(detail: ErrorDetail, message: string)
    requires "email" in detail && detail["email"] == [message] && !ReadsAsUnique(message)
    ensures !IsUniqueConflict(detail)
  {
  }

  /** Registering an address that is already stored is answered with 400, not 409, whichever
      check reports it: the view looks for "unique", the framework says "... already exists."
      and the serializer says 'Email already exits'. */
  lemma DuplicateEmailIsBadRequest(fieldErrors: ErrorDetail, emails: set<string>, payload: map<string, string>)
    requires "email" in payload && Strip(payload["email"]) in emails
    requires "email" in fieldErrors ==> fieldErrors["email"] == [ModelUniqueMessage]
    ensures RegisterIsValid(fieldErrors, emails, payload).Failure?
    ensures !IsUniqueConflict(RegisterIsValid(fieldErrors, emails, payload).error)
  {
    DuplicateEmailDetail(fieldErrors, emails, payload);
    ModelUniqueMessageLacksQ();
    EmailTakenMessageLacksQ();
    var message := if "email" in fieldErrors then ModelUniqueMessage else EmailTakenMessage;
    NoQNoConflict(message);
    SingleMessageNoConflict(RegisterIsValid(fieldErrors, emails, payload).error, message);
  }

  /** `LoginView.post` as written: `serializer.save()` on LoginSerializer, which has no
      `create()`, reaches the framework's default `create()`, which raises
      NotImplementedError; that is not an APIException, so it leaves the view. */
  method LoginPostAsWritten(fieldErrors: ErrorDetail, payload: map<string, string>,
                            authenticate: (Option<Value>, Option<Value>) -> Option<UserId>) returns (r: ViewOutcome)
    ensures LoginIsValid(fieldErrors, payload, authenticate).Success? ==> r == Raise(NotImplementedError)
    ensures LoginIsValid(fieldErrors, payload, authenticate).Failure? ==>
      && r.Respond? && r.response.status == HTTP_400_BAD_REQUEST
      && r.response.data == JObject(map["detail" := JStr(LoginFailedDetail)])
  {
    var validation := LoginIsValid(fieldErrors, payload, authenticate);
    if validation.Failure? {
      var response := new Response(JObject(map["detail" := JStr(LoginFailedDetail)]), HTTP_400_BAD_REQUEST);
      return Respond(response);
    }
    return Raise(NotImplementedError);
  }

  /** Valid credentials exist: with an authenticator that accepts them, login validation
      succeeds, and so the view as written raises. */
  lemma SomeLoginValidates()
    ensures LoginIsValid(map[], map["email" := "a@b.c", "password" := "pw"], (e, p) => Some(7)).Success?
  {
  }

  /** `LoginView.post` without the `save()` call: a failed validation of any kind is answered
      with one generic 400; otherwise a refresh token is issued for the user, the access token
      goes into the body and the refresh token only into an httponly, secure, SameSite=Lax
      cookie. `refreshText`/`accessText` are the encodings of the new token pair. */
  method LoginPost(store: TokenStore, fieldErrors: ErrorDetail, payload: map<string, string>,
                   authenticate: (Option<Value>, Option<Value>) -> Option<UserId>,
                   refreshText: string, accessText: string) returns (r: ViewOutcome)
    requires store.Valid()
    requires refreshText != "" && refreshText !in store.issued
    modifies store
    ensures store.Valid()
    ensures r.Respond?
    ensures LoginIsValid(fieldErrors, payload, authenticate).Failure? ==>
      && r.response.status == HTTP_400_BAD_REQUEST
      && r.response.data == JObject(map["detail" := JStr(LoginFailedDetail)])
      && r.response.cookies == map[]
      && store.issued == old(store.issued) && store.blacklist == old(store.blacklist)
    ensures LoginIsValid(fieldErrors, payload, authenticate).Success? ==>
      var user := LoginIsValid(fieldErrors, payload, authenticate).value["user"].id;
      && r.response.status == HTTP_200_OK
      && r.response.data == JObject(map["message" := JStr(LoginMessage), "response" := JStr(SuccessResponseMessage),
                                        "access_token" := JStr(accessText)])
      && r.response.cookies == map[RefreshCookie := Cookie(refreshText, true, true, Some("Lax"))]
      && store.issued == old(store.issued)[refreshText := Claims(old(store.nextJti), user)]
      && store.blacklist == old(store.blacklist)
      && store.Redeemable(refreshText, false)
  {
    var validation := LoginIsValid(fieldErrors, payload, authenticate);
    if validation.Failure? {
      var response := new Response(JObject(map["detail" := JStr(LoginFailedDetail)]), HTTP_400_BAD_REQUEST);
      return Respond(response);
    }
    var user := validation.value["user"].id;
    store.Issue(user, refreshText);
    var body := map["message" := JStr(LoginMessage), "response" := JStr(SuccessResponseMessage), "access_token" := JStr(accessText)];
    var response := new Response(JObject(body), HTTP_200_OK);
    response.SetCookie(RefreshCookie, refreshText, true, true, Some("Lax"));
    return Respond(response);
  }

  /** What a successful registration hands to `create`: the stripped declared fields, among
      them an unused address and both passwords. */
  lemma RegistrationData(fieldErrors: ErrorDetail, emails: set<string>, payload: map<string, string>)
    requires "email" !in fieldErrors ==> "email" in payload
    requires "password" !in fieldErrors ==> "password" in payload
    requires "confirm_password" !in fieldErrors ==> "confirm_password" in payload
    requires RegisterIsValid(fieldErrors, emails, payload).Success?
    ensures var data := RegisterIsValid(fieldErrors, emails, payload).value;
      && data == Declared(payload, RegisterFields)
      && {"email", "password", "confirm_password"} <= data.Keys
      && data["email"] == Text(Strip(payload["email"]))
      && data["password"] == Text(Strip(payload["password"]))
      && Strip(payload["email"]) !in emails
  {
    var r := RegisterIsValid(fieldErrors, emails, payload);
    assert r.Success?;
    assert fieldErrors == map[] && r.value == Declared(payload, RegisterFields);
    DeclaredField(payload, RegisterFields, "email");
    DeclaredField(payload, RegisterFields, "password");
    DeclaredField(payload, RegisterFields, "confirm_password");
  }

  /** `RegisterView.post`: 201 after creating the user (`created` is the clock's `now`); a
      validation error is answered with 409 when it reads as a uniqueness conflict on the
      e-mail, and with 400 and the serializer's errors otherwise. The framework guarantees the
      popped fields are present when it reports no error for them. */
  method RegisterPost(users: UserTable, fieldErrors: ErrorDetail, payload: map<string, string>, now: string)
    returns (r: ViewOutcome)
    requires "email" !in fieldErrors ==> "email" in payload
    requires "password" !in fieldErrors ==> "password" in payload
    requires "confirm_password" !in fieldErrors ==> "confirm_password" in payload
    modifies users
    ensures r.Respond?
    ensures RegisterIsValid(fieldErrors, old(users.users).Keys, payload).Success? ==>
      && r.response.status == HTTP_201_CREATED
      && r.response.data == JObject(map["message" := JStr(RegisteredMessage), "response" := JStr(SuccessResponseMessage)])
      && Strip(payload["email"]) !in old(users.users)
      && users.users == old(users.users)[Strip(payload["email"]) := UserRecord(Text(Strip(payload["password"])),
           Declared(payload, RegisterFields)["created" := Text(now)] - {"email", "password", "confirm_password"})]
    ensures RegisterIsValid(fieldErrors, old(users.users).Keys, payload).Failure? ==>
      var detail := RegisterIsValid(fieldErrors, old(users.users).Keys, payload).error;
      && users.users == old(users.users)
      && (IsUniqueConflict(detail) ==>
            r.response.status == HTTP_409_CONFLICT &&
            r.response.data == JObject(map["email" := JList([JStr(ConflictMessage)])]))
      && (!IsUniqueConflict(detail) ==>
            r.response.status == HTTP_400_BAD_REQUEST && r.response.data == DetailJson(detail))
  {
    var validation := RegisterIsValid(fieldErrors, users.users.Keys, payload);
    if validation.Failure? {
      var detail := validation.error;
      if IsUniqueConflict(detail) {
        var response := new Response(JObject(map["email" := JList([JStr(ConflictMessage)])]), HTTP_409_CONFLICT);
        return Respond(response);
      }
      var response := new Response(DetailJson(detail), HTTP_400_BAD_REQUEST);
      return Respond(response);
    }
    RegistrationData(fieldErrors, users.users.Keys, payload);
    var saved := Create(users, validation.value["created" := Text(now)]);
    assert saved.Success?;
    var response := new Response(JObject(map["message" := JStr(RegisteredMessage), "response" := JStr(SuccessResponseMessage)]), HTTP_201_CREATED);
    return Respond(response);
  }

  /** `RefreshTokenView.post`. A Cookie header the token cannot be read from makes
      `get_refresh_token` raise, which is no APIException and leaves the view. The token goes
      through the refresh serializer's CharField, which strips surrounding whitespace; a token
      blank after stripping (a field error) or an unusable one (TokenError, turned into
      InvalidToken) is answered with one generic 401. Otherwise the token is rotated: the body carries the new access
      token and the `refresh_token` cookie (httponly, secure, no SameSite) the new refresh
      token. `expired` is the clock's verdict on the presented token. */
  method RefreshPost(store: TokenStore, cookieHeader: Option<string>, expired: bool,
                     newRefresh: string, newAccess: string) returns (r: ViewOutcome)
    requires store.Valid()
    requires newRefresh != "" && newRefresh !in store.issued
    modifies store
    ensures store.Valid()
    ensures GetRefreshToken(cookieHeader).Failure? ==>
      r == Raise(GetRefreshToken(cookieHeader).error) && unchanged(store)
    ensures GetRefreshToken(cookieHeader).Success? && !old(store.Redeemable(Strip(GetRefreshToken(cookieHeader).value), expired)) ==>
      && r.Respond? && r.response.status == HTTP_401_UNAUTHORIZED
      && r.response.data == JObject(map["detail" := JStr(RefreshFailedDetail)])
      && r.response.cookies == map[]
      && unchanged(store)
    ensures GetRefreshToken(cookieHeader).Success? && old(store.Redeemable(Strip(GetRefreshToken(cookieHeader).value), expired)) ==>
      var token := Strip(GetRefreshToken(cookieHeader).value);
      && r.Respond? && r.response.status == HTTP_200_OK
      && r.response.data == JObject(map["response" := JStr(SuccessResponseMessage), "access_token" := JStr(newAccess)])
      && r.response.cookies == map[RefreshCookie := Cookie(newRefresh, true, true, None)]
      && store.issued == old(store.issued)[newRefresh := Claims(old(store.nextJti), old(store.issued)[token].user)]
      && store.blacklist == old(store.blacklist) + {old(store.issued)[token].jti}
      && (forall e :: !store.Redeemable(token, e))
      && store.Redeemable(newRefresh, false)
  {
    var cookie := GetRefreshToken(cookieHeader);
    if cookie.Failure? {
      return Raise(cookie.error);
    }
    var token := Strip(cookie.value);
    if token == "" || !store.Redeemable(token, expired) {
      var response := new Response(JObject(map["detail" := JStr(RefreshFailedDetail)]), HTTP_401_UNAUTHORIZED);
      return Respond(response);
    }
    store.Rotate(token, newRefresh);
    var body := map["response" := JStr(SuccessResponseMessage), "access_token" := JStr(newAccess)];
    var response := new Response(JObject(body), HTTP_200_OK);
    response.SetCookie(RefreshCookie, newRefresh, true, true, None);
    return Respond(response);
  }

  /** `LogoutView.post` behind `IsAuthenticated`: an anonymous requester is refused with
      NotAuthenticated (401) before the view runs. The token comes from the Cookie header;
      an unusable one raises TokenError, which is no APIException and leaves the view, as do
      the cookie errors. A usable one is blacklisted. The view's `except APIException` branch
      is never taken, since nothing inside raises an APIException. */
  method LogoutPost(store: TokenStore, requester: Requester, cookieHeader: Option<string>, expired: bool)
    returns (r: ViewOutcome)
    requires store.Valid()
    modifies store
    ensures store.Valid()
    ensures requester.Anonymous? ==> r == Raise(NotAuthenticated) && unchanged(store)
    ensures requester.Member? && GetRefreshToken(cookieHeader).Failure? ==>
      r == Raise(GetRefreshToken(cookieHeader).error) && unchanged(store)
    ensures requester.Member? && GetRefreshToken(cookieHeader).Success? ==>
      var token := GetRefreshToken(cookieHeader).value;
      && (!old(store.Redeemable(token, expired)) ==>
            r == Raise(TokenError(old(store.RejectionMessage(token, expired)))) && unchanged(store))
      && (old(store.Redeemable(token, expired)) ==>
            && r.Respond? && r.response.status == HTTP_200_OK
            && r.response.data == JObject(map["detail" := JStr(LoggedOutDetail)])
            && store.blacklist == old(store.blacklist) + {old(store.issued)[token].jti}
            && store.issued == old(store.issued)
            && (forall e :: !store.Redeemable(token, e)))
  {
    if requester.Anonymous? {
      return Raise(NotAuthenticated);
    }
    var cookie := GetRefreshToken(cookieHeader);
    if cookie.Failure? {
      return Raise(cookie.error);
    }
    var token := cookie.value;
    if !store.Redeemable(token, expired) {
      return Raise(TokenError(store.RejectionMessage(token, expired)));
    }
    store.Blacklist(token);
    var response := new Response(JObject(map["detail" := JStr(LoggedOutDetail)]), HTTP_200_OK);
    return Respond(response);
  }

  /** After a first logout that succeeded, a second one with the same cookie raises
      TokenError: "Token is blacklisted" while the token is still within its lifetime, and
      "Token is invalid or expired" once it has expired. */
  method LogoutTwice(store: TokenStore, requester: Requester, cookieHeader: Option<string>, expired: bool, laterExpired: bool)
    returns (first: ViewOutcome, second: ViewOutcome)
    requires store.Valid()
    modifies store
    ensures first.Respond? ==>
      second == Raise(TokenError(if laterExpired then InvalidTokenMessage else BlacklistedTokenMessage))
  {
    first := LogoutPost(store, requester, cookieHeader, expired);
    second := LogoutPost(store, requester, cookieHeader, laterExpired);
  }
}
