/** backend/core/common/globalFunctions.py: reading the refresh token out of the Cookie
    header, and the success envelope shared by the views. */
module GlobalFunctions {
  import opened Common
  import opened Strings
  import opened Http

  /** The separator `get_refresh_token` splits the Cookie header on. */
  const RefreshKey: string := "refresh_token="

  /** `responseMessages.SUCCESS_RESPONSE_MESSAGE`; the constants module is not part of this
      model, and the value is the one the views' schema examples show. */
  const SuccessResponseMessage: string := "OK"

  /** `get_refresh_token(request)`: `request.headers.get("Cookie").split("refresh_token=")[1]`.
      A missing header fails on `None.split` (AttributeError); a header without the key
      fails on the index (IndexError). */
  function GetRefreshToken(cookieHeader: Option<string>): (r: Result<string, Exception>)
    ensures cookieHeader.None? ==> r == Failure(AttributeError)
    ensures cookieHeader.Some? && !Contains(cookieHeader.value, RefreshKey) ==> r == Failure(IndexError)
    ensures cookieHeader.Some? && Contains(cookieHeader.value, RefreshKey) ==>
      var rest := cookieHeader.value[IndexOf(cookieHeader.value, RefreshKey).value + |RefreshKey|..];
      r == Success(match IndexOf(rest, RefreshKey) case None => rest case Some(j) => rest[..j])
    ensures r.Success? ==> !Contains(r.value, RefreshKey)
  {
    match cookieHeader
    case None => Failure(AttributeError)
    case Some(cookie) =>
      var parts := Split(cookie, RefreshKey);
      SplitFirst(cookie, RefreshKey);
      if |parts| > 1 then
        SplitFirst(cookie[IndexOf(cookie, RefreshKey).value + |RefreshKey|..], RefreshKey);
        SplitPiecesFree(cookie, RefreshKey);
        Success(parts[1])
      else
        Failure(IndexError)
  }

  /** A header that starts with the token and holds no second `refresh_token=` yields
      everything after the key. */
  lemma TokenAtStart(rest: string)
    requires !Contains(rest, RefreshKey)
    ensures GetRefreshToken(Some(RefreshKey + rest)) == Success(rest)
  {
    var header := RefreshKey + rest;
    assert header[..|RefreshKey|] == RefreshKey;
    assert IndexOf(header, RefreshKey) == Some(0);
    assert header[|RefreshKey|..] == rest;
  }

  /** Cookies that follow the token are kept. */
  lemma TrailingCookiesKept()
    ensures GetRefreshToken(Some("refresh_token=a; x=y")) == Success("a; x=y")
  {
    TokenAtStart("a; x=y");
    assert RefreshKey + "a; x=y" == "refresh_token=a; x=y";
  }

  /** `handle_success_response(data, message)`: status 200, with a `data` entry only when
      `data` is truthy. */
  method HandleSuccessResponse(data: Json, message: string) returns (r: Response)
    ensures r.status == HTTP_200_OK && r.cookies == map[]
    ensures r.data.JObject?
    ensures Truthy(data) ==> r.data.fields.Keys == {"message", "data", "response"} && r.data.fields["data"] == data
    ensures !Truthy(data) ==> r.data.fields.Keys == {"message", "response"}
    ensures "message" in r.data.fields && r.data.fields["message"] == JStr(message)
    ensures "response" in r.data.fields && r.data.fields["response"] == JStr(SuccessResponseMessage)
  {
    if Truthy(data) {
      var responseData := map["message" := JStr(message), "data" := data, "response" := JStr(SuccessResponseMessage)];
      r := new Response(JObject(responseData), HTTP_200_OK);
      return;
    }
    var responseData := map["message" := JStr(message), "response" := JStr(SuccessResponseMessage)];
    r := new Response(JObject(responseData), HTTP_200_OK);
  }
}
