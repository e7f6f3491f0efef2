# Virtual marketplace: the rules of its API, in Dafny

This project models the parts of the marketplace backend (Django REST framework) and of its
Angular client that can be stated as rules. They are:

- **Cart items** (`backend/orders/serializers.py`, module `CartItems`). `validate` admits an item into a cart through a fixed chain of checks:
  - the quantity is at most the listing's stock and at least 1;
  - the cart is given;
  - on create, the (cart, listing) pair is not already in a cart item;
  - the cart belongs to the requester;
  - the listing is given and active.

  `create` inserts the row; `update` rewrites only the quantity. The cart-item table is a class. POST and PUT keep the invariant "at most one item per (cart, listing)". The corrected PUT (`CartItemTable.Put`, which uses `ValidateUpdate`) also keeps "every item within its listing's stock", and only the buyer of an item's cart changes the item.
- **Registration and login validation** (`backend/users/serializers.py`, module `UserSerializers`):
  - the fields' trimming of surrounding whitespace, which every submitted value goes through;
  - the e-mail hook;
  - the password-confirmation check;
  - `create`, which pops `confirm_password` before `create_user`;
  - login, which fails without an authenticated user and otherwise adds `user` to the data.

  `authenticate` is a function parameter and the user table is a class.
- **Permissions** (`backend/users/permissions.py`, `backend/orders/permissions.py`, modules `UserPermissions` and `OrderPermissions`):
  - owner-or-read-only;
  - "no review on your own listing";
  - "only the author destroys a review";
  - "carts are never deleted".

  They are combined the way the review and cart viewsets list them.
- **Auth endpoints** (`backend/users/views/auth_views.py`, modules `AuthViews` and `Tokens`):
  - login, register, refresh and logout, as methods that build the response, with its status, body and `refresh_token` cookie, or raise;
  - the refresh-token state as a `TokenStore`, with issued tokens, a blacklist of `jti`s, and rotation with blacklisting.
- **Helpers**:
  - reading the refresh token out of the Cookie header and the success envelope (`backend/core/common/globalFunctions.py`, module `GlobalFunctions`);
  - the exception handler that decorates error responses (`backend/core/exceptions.py`, module `Exceptions`);
  - the "active-only" partial update of a listing (`backend/listings/views/listing_views.py`, module `ListingViews`).
- **Client state**:
  - the four-state load indicator (`frontend/src/app/services/load-status.service.ts`, module `LoadStatus`);
  - the access-token state of the client's auth service, with localStorage as a map (`frontend/src/app/api/auth.service.ts`, module `ClientAuth`).

Supporting modules:

- `Common`: Option, Result and ids.
- `Strings`: Python's `find`, `split`, `join`, `in`, `strip` and ASCII `lower`. Join-of-split is proved to give back the input, and no piece of a split contains the separator.
- `Http`: JSON values, the mutable `Response`, the exceptions, and the framework's `IsAuthenticatedOrReadOnly`.

The framework supplies some inputs as parameters:

- the result of its field checks (required, blank, e-mail syntax, the model's uniqueness validator);
- the looked-up objects;
- the base exception handler's response.

Other values that come from outside are parameters too: the clock (`now`, whether a token has expired), the encoded text of newly signed tokens, and the authenticator.

## Model

| member | source | states |
|---|---|---|
| Strings.IndexOf | backend/core/common/globalFunctions.py:10 | the result is the first occurrence of the separator: no earlier index matches, and None means no index matches |
| Strings.SplitFirst | backend/core/common/globalFunctions.py:10 | the first piece of a split ends at the first occurrence; a second piece exists iff the separator occurs; the rest is the split of what follows |
| Strings.JoinSplit | backend/core/common/globalFunctions.py:10 | joining the pieces of `split(sep)` with `sep` gives back the input |
| Strings.SplitPiecesFree | backend/core/common/globalFunctions.py:10 | no piece of a split contains the separator |
| Strings.ContainsOccurs | backend/users/views/auth_views.py:182 | `sub in s` holds iff `sub` occurs at some index of `s` |
| Strings.Strip | backend/users/serializers.py:10-11 | the result is the slice of the input that starts after its leading whitespace, has no whitespace at either end, and is followed only by whitespace |
| Strings.StripUnique | backend/users/serializers.py:10-11 | for whitespace, then a core with no whitespace at either end, then whitespace, `strip` returns exactly the core |
| Strings.StripIdempotent | backend/users/serializers.py:10-11 | stripping twice is stripping once |
| Strings.Lower | backend/users/views/auth_views.py:182 | ASCII lowercasing keeps the length and maps each character on its own |
| GlobalFunctions.GetRefreshToken | backend/core/common/globalFunctions.py:8-11 | a missing header gives AttributeError; a header without `refresh_token=` gives IndexError; otherwise the result is the text after the first `refresh_token=` up to the next one or the end, and never contains `refresh_token=` |
| GlobalFunctions.TrailingCookiesKept | backend/core/common/globalFunctions.py:10 | cookies after the token are not stripped: `refresh_token=a; x=y` gives `a; x=y` |
| GlobalFunctions.HandleSuccessResponse | backend/core/common/globalFunctions.py:14-27 | status 200; the body keys are exactly {message, data, response} for truthy data and {message, response} otherwise |
| Exceptions.CustomExceptionHandler | backend/core/exceptions.py:6-15 | no base response gives None; otherwise `status_code` equals the response status, `error_message` is added iff the exception is a ValidationError, every other key is unchanged; non-dictionary data raises TypeError and changes nothing |
| CartItems.Validate | backend/orders/serializers.py:23-61 | success iff the order-free admission predicate holds, and then `attrs` come back unchanged; a quantity above stock gives the stock error; a quantity in 1..stock never fails the bound check; an update never fails as a duplicate |
| CartItems.ValidateFollowsRuleOrder | backend/orders/serializers.py:32-59 | the error raised is that of the first failing rule in source order: quantity, cart, duplicate, ownership, listing |
| CartItems.NewItem | backend/orders/serializers.py:63-64 | the inserted row takes cart, listing and quantity from the validated data, with the model default 1 for a missing quantity |
| CartItems.InsertKeepsPairsUnique | backend/orders/serializers.py:44-49 | inserting a pair that is in no cart item keeps the pairs unique |
| CartItems.AdmittedCreateKeepsPairsUnique | backend/orders/serializers.py:44-64 | validate followed by create keeps at most one item per (cart, listing) |
| CartItems.UpdatedItem | backend/orders/serializers.py:66-69 | update keeps cart and listing and takes the new quantity, or keeps the old one when none is given |
| CartItems.UpdateKeepsPairsUnique | backend/orders/serializers.py:66-69 | an update keeps the pairs unique |
| CartItems.CartItemTable.Create | backend/orders/serializers.py:63-64 | adds the new row under a fresh id and changes nothing else |
| CartItems.CartItemTable.Update | backend/orders/serializers.py:66-69 | replaces only row `id`, with the updated quantity |
| CartItems.CartItemTable.Post | backend/orders/serializers.py:23-64 | a rejection returns validate's error and leaves the table alone; success inserts the new row; pair uniqueness is preserved |
| CartItems.CartItemTable.Put | backend/orders/serializers.py:23-69 | a rejection changes nothing; success rewrites only the quantity of item `id`; the table changes only for the buyer of the item's cart; pair uniqueness and stock bounds are preserved |
| CartItems.UpdateCheckedAgainstPayloadListing | backend/orders/serializers.py:33 | as written, a PUT naming a better-stocked listing passes validate and leaves the item above its own listing's stock |
| CartItems.UpdateCheckedAgainstPayloadCart | backend/orders/serializers.py:51-53 | as written, a PUT naming the requester's own cart passes validate and changes the quantity of an item in another buyer's cart |
| CartItems.ValidateUpdate | backend/orders/serializers.py:32-53 | corrected check: succeeds iff validate succeeds, the quantity is within the stock of the item's own listing, and the requester is the buyer of the item's own cart; it then returns `attrs`; a quantity above the own stock gives the stock error, and a foreign cart otherwise gives the ownership error |
| CartItems.CorrectedUpdateKeepsStock | backend/orders/serializers.py:66-69 | with the corrected check, an admitted update keeps every item within its listing's stock |
| OrderPermissions.IsNotAllowedToDestroy | backend/orders/permissions.py:5-6 | DELETE is denied and every other method allowed |
| OrderPermissions.DecisionIgnoresUserAndView | backend/orders/permissions.py:5-6 | requests with the same method get the same decision, whoever sends them and whatever the view |
| OrderPermissions.CartViewSetPermits | backend/orders/views/cart_views.py:186 | the cart viewset admits a request iff its method is not DELETE |
| OrderPermissions.CartsAreNeverDeleted | backend/orders/views/cart_views.py:186 | no user deletes a cart through the API |
| UserPermissions.IsOwnerOrReadOnly | backend/users/permissions.py:5-9 | safe methods are always allowed; other methods only when the object's user is the requester |
| UserPermissions.AnonymousOnlyReads | backend/users/permissions.py:6-9 | an anonymous requester is allowed exactly the safe methods |
| UserPermissions.IsAllowedToReview | backend/users/permissions.py:13-19 | a create with a listing id is allowed iff the listing's owner is not the requester; an unknown id raises DoesNotExist; other actions and creates without a listing id are allowed |
| UserPermissions.IsAllowedToReviewObject | backend/users/permissions.py:21-24 | update, partial_update and destroy are allowed iff the requester does not own the reviewed listing; other actions are allowed |
| UserPermissions.IsAllowedToDestroyReview | backend/users/permissions.py:27-29 | an object action is allowed iff the requester wrote the review |
| UserPermissions.ReviewObjectAccess | backend/users/views/review_views.py:213-217 | on an existing review, the viewset's permissions pass iff the requester wrote the review and, for update, partial_update and destroy, the author does not own the listing |
| UserPermissions.DestroyOnlyByAuthorOfOthersListing | backend/users/views/review_views.py:213-217 | in the review viewset a destroy passes iff the requester wrote the review and does not own the listing |
| UserPermissions.OnlyAuthorReachesReview | backend/users/views/review_views.py:213-217 | a requester who did not write a review passes no object action on it |
| UserPermissions.ReviewCreateAccess | backend/users/views/review_views.py:213-217 | an anonymous POST is refused before any listing lookup; for a user and a known listing, the create is admitted iff the user does not own the listing |
| UserSerializers.LoginValidate | backend/users/serializers.py:13-25 | with no authenticated user it fails with 'Unable to log in with provided credentials.' and code "authorization"; otherwise the data gain `user` and every other key is unchanged |
| UserSerializers.LoginIsValid | backend/users/serializers.py:9-25 | field errors are reported as they are; with no field errors, an accepted authentication of the stripped email and password returns the declared data plus `user` set to the authenticated user, and a rejected authentication of the stripped email and password is reported under non_field_errors |
| UserSerializers.Submitted | backend/users/serializers.py:10-11 | a field hands on the stripped text of a present key and nothing for an absent one |
| UserSerializers.Declared | backend/users/serializers.py:28-33 | the data hold exactly the declared fields present in the payload, each with its stripped text |
| UserSerializers.ValidateEmail | backend/users/serializers.py:35-39 | an address already stored, compared exactly, is refused with 'Email already exits'; any other is returned unchanged |
| UserSerializers.ValidatePasswords | backend/users/serializers.py:41-48 | refused with the mismatch message iff `confirm_password` and `password` differ as looked up |
| UserSerializers.RegisterIsValid | backend/users/serializers.py:28-48 | when the framework reported nothing for `email`, a stored address, after stripping, yields 'Email already exits' under `email` (the model's uniqueness validator runs first with the same exact lookup, so for a stored address it reports and this refusal is shadowed); field errors always fail, each kept as reported, with at most the `email` refusal added; with no field error and a new address, it succeeds iff the stripped passwords match and otherwise reports the mismatch alone under non_field_errors; success data are the stripped declared fields |
| UserSerializers.PaddedPasswordMatches | backend/users/serializers.py:41-48 | a password with trailing whitespace still matches its confirmation without it, so such a registration validates |
| UserSerializers.UserTable.CreateUser | backend/users/serializers.py:56 | adds a user under a new address; an address already present raises IntegrityError and changes nothing |
| UserSerializers.Create | backend/users/serializers.py:50-56 | a missing email, password or confirm_password raises KeyError and creates nothing; otherwise it succeeds iff the address is new; an address already stored raises IntegrityError and changes nothing; `create_user` gets the email and password, and the remaining fields never include confirm_password |
| Tokens.TokenStore.RejectionMessage | backend/users/views/auth_views.py:300 | the TokenError says "blacklisted" iff the token was issued, has not expired and its jti is blacklisted; otherwise it says "Token is invalid or expired" |
| Tokens.TokenStore.Issue | backend/users/views/auth_views.py:92 | the new token is recorded with a fresh jti and is redeemable; no other token changes status |
| Tokens.TokenStore.Blacklist | backend/users/views/auth_views.py:301 | the token's jti joins the blacklist; the token is never redeemable again, and no token becomes redeemable |
| Tokens.TokenStore.Rotate | backend/api/settings.py:171-172 | rotation blacklists the presented token and issues a redeemable one for the same user |
| AuthViews.ReadsAsUnique | backend/users/views/auth_views.py:182 | a message reads as a conflict iff "unique" occurs in its lowercased text |
| AuthViews.IsUniqueConflict | backend/users/views/auth_views.py:181-183 | a detail is a conflict iff it has an `email` entry one of whose messages reads as "unique" |
| AuthViews.NoQNoConflict | backend/users/views/auth_views.py:181-183 | a message without the letter q never reads as a uniqueness conflict |
| AuthViews.DuplicateEmailDetail | backend/users/views/auth_views.py:180-182 | a stripped address that is already stored leaves exactly one message under `email`, the framework's or the hook's |
| AuthViews.DuplicateEmailIsBadRequest | backend/users/views/auth_views.py:180-192 | registering a stored address fails validation without reading as a conflict, so the answer is 400, never 409 |
| AuthViews.LoginPostAsWritten | backend/users/views/auth_views.py:84-114 | as written: failed validation gives 400 with the generic detail; a valid login reaches `save()` and raises NotImplementedError |
| AuthViews.SomeLoginValidates | backend/users/serializers.py:13-25 | a login whose credentials the authenticator accepts passes validation, so the as-written view raises for it |
| AuthViews.LoginPost | backend/users/views/auth_views.py:84-114 | any validation failure gives 400 with one generic detail and issues nothing; success gives 200 with body {message, response, access_token}, and the refresh token only in the `refresh_token` cookie (httponly, secure, SameSite Lax), issued for the authenticated user |
| AuthViews.RegistrationData | backend/users/views/auth_views.py:171-172 | a successful validation hands `save` the stripped declared fields, with email, password and confirm_password present and an unused address |
| AuthViews.RegisterPost | backend/users/views/auth_views.py:168-192 | valid data creates the user under the stripped address with the stripped password and gives 201 "User registered successfully"; a failure gives 409 iff an email error reads as "unique", else 400 with the serializer errors; failures create nothing |
| AuthViews.RefreshPost | backend/users/views/auth_views.py:233-261 | cookie errors are raised; the token is looked up after stripping surrounding whitespace, as the refresh serializer's CharField does; a token blank after stripping or unusable gives 401 with the generic detail and changes nothing; success rotates the token, returns the new access token and puts the new refresh token in the cookie (httponly, secure) |
| AuthViews.LogoutPost | backend/users/views/auth_views.py:264-309 | anonymous gives NotAuthenticated; a missing Cookie header raises AttributeError and one without `refresh_token=` raises IndexError; an unusable token raises TokenError, saying "blacklisted" only for an unexpired blacklisted token; success gives 200 "User logged out successfully." and blacklists the token for good |
| AuthViews.LogoutTwice | backend/users/views/auth_views.py:299-301 | after a successful logout, the same cookie raises TokenError "Token is blacklisted" while the token is unexpired and "Token is invalid or expired" once it has expired |
| ListingViews.Listing.constructor | backend/listings/models.py:6-14 | a new listing is active |
| ListingViews.Listing.Representation | backend/listings/views/listing_views.py:77 | the returned representation carries the stored `active` |
| ListingViews.HasPermission | backend/listings/views/listing_views.py:64 | a request passes iff its method is GET, HEAD or OPTIONS or the requester is authenticated |
| ListingViews.ReadsAreOpen | backend/listings/views/listing_views.py:64 | anyone may read listings |
| ListingViews.AnonymousWritesRefused | backend/listings/views/listing_views.py:64 | an anonymous requester may only read |
| ListingViews.PartialUpdate | backend/listings/views/listing_views.py:66-77 | invalid data raises and changes nothing; data with `active` writes only `active`; otherwise every given field is written and the rest kept; the answer is 200 with the listing as stored |
| ListingViews.Deactivate | backend/listings/views/listing_views.py:71-77 | PATCH {"active": false} stores and returns `active` false with 200, and other fields in the payload are not written |
| LoadStatus.LoadStatusService.constructor | frontend/src/app/services/load-status.service.ts:8 | the service starts idle |
| LoadStatus.LoadStatusService.ExactlyOneFlag | frontend/src/app/services/load-status.service.ts:10-13 | exactly one of isIdle, isLoading, isSuccess, isError holds |
| LoadStatus.LoadStatusService.SetLoading | frontend/src/app/services/load-status.service.ts:15-17 | from any state the status becomes loading |
| LoadStatus.LoadStatusService.SetSuccess | frontend/src/app/services/load-status.service.ts:19-21 | from any state the status becomes success |
| LoadStatus.LoadStatusService.SetError | frontend/src/app/services/load-status.service.ts:23-25 | from any state the status becomes error |
| LoadStatus.LoadStatusService.Reset | frontend/src/app/services/load-status.service.ts:27-29 | from any state the status returns to idle |
| LoadStatus.SettersIdempotent | frontend/src/app/services/load-status.service.ts:15-29 | for each of the four setters, one call and two calls leave the same status, the one that setter names; the first pair starts from any status, each later one from the status the previous setter left |
| ClientAuth.AuthService.constructor | frontend/src/app/api/auth.service.ts:29-34 | a non-empty stored access token is adopted; otherwise the token is empty and the user a guest |
| ClientAuth.AuthService.IsGuest | frontend/src/app/api/auth.service.ts:26-27 | guest iff the token is empty, the negation of isAuthenticated |
| ClientAuth.AuthService.Login | frontend/src/app/api/auth.service.ts:36-37 | login posts email and password to `/login/` and changes no state |
| ClientAuth.AuthService.OnLoginResponse | frontend/src/app/api/auth.service.ts:38-41 | after a login response, storage (when present) and token both hold the response's access token |
| ClientAuth.AuthService.Register | frontend/src/app/api/auth.service.ts:45-47 | register posts the form and leaves token and storage untouched |
| ClientAuth.ReloadAfterLogin | frontend/src/app/api/auth.service.ts:29-41 | a service built over storage that a login filled starts authenticated with that token |

## Left out

- The framework's own field validation is not modelled: required and blank fields (a value that is blank once stripped), e-mail syntax, max lengths, primary-key resolution, and the model's uniqueness validator. Its result is an input, and references are taken as resolved.
- Object lookup (`get_object`, 404s), routers, URL confs, ORM persistence, migrations, settings, CORS, the admin, and the schema decorations are framework plumbing.
- Tokens.TokenStore.RejectionMessage: only refresh tokens of this store are modelled. An access token sent in the `refresh_token` cookie decodes, passes the blacklist check and is then refused with "Token has wrong type"; that message is not modelled.
- JWT signing, decoding and expiry are simplejwt library code. Tokens are opaque text, a valid signature means "issued by this store", expiry is a boolean input, and the outstanding-token table is folded into the issued map.
- `LoginView.post`'s `serializer.save()` is not modelled beyond its effect: the as-written view raises NotImplementedError, and the corrected view omits the call.
- The `except APIException` branch of `LogoutView.post` is not modelled as a path, because nothing inside the try raises an APIException. NotAuthenticated is reported as raised; the framework answers it with 401.
- Logging is not modelled.
- The responseMessages constants module is not part of this model. `SUCCESS_RESPONSE_MESSAGE` is taken as "OK", the value in the login and token-refresh schema examples (backend/users/views/auth_views.py:43, :206); the registration example at :133 shows "Ok", and the model uses "OK" there too. `LOGIN_MESSAGE` takes the value the login schema example shows.
- Python's Unicode `str.lower` is not modelled; only ASCII letters are lowercased.
- Concurrent requests are not modelled. In particular, two registrations racing past the e-mail check are not covered; a second insert would raise IntegrityError.
- The listing stock toggle and price/quantity `clean` are not modelled. The listing model shown has no `save` or `clean` override.
- User-manager behaviour is not modelled: e-mail lowercasing, password hashing, and Settings/Cart provisioning. `create_user` only stores what it is given.
- The duplicate-cart-item 403 is not modelled. It comes from `IsNotItemAlreadyInCart`, which is not part of this model; only the serializer's rejection is.
- ListingViews.Listing.Representation: the price is written as an integer number of cents, while the framework renders decimals as strings. The `"__all__"` serializer also returns the `id`, the image, and whatever fields the base model adds (backend/core/models.py is not part of this model); the representation here omits them.
- Money is modelled as integer cents, never floats.
- The client's HttpClient, routing, components and form validators are not modelled. `Login` and `Register` return the request they would send.
- `CartItems.CartItemTable.Put` uses the corrected stock and ownership checks (see Findings), not the ones as written. It takes the item's cart and listing to be stored rows, as their foreign keys guarantee.
- `AuthViews.LoginPost` models the corrected view (see Findings), not the one as written.

## Findings

| source | as written | input that shows it | evidently intended | confidence | as-written member | corrected member |
|---|---|---|---|---|---|---|
| backend/orders/serializers.py:33 | on update, the quantity is compared with the stock of the listing named in the payload, while `update` keeps the item's own listing | item 4 in cart 3 of user 5 on listing 1 (stock 1, quantity 1); PUT {cart 3, listing 2 (stock 10), quantity 5} passes and stores quantity 5 against stock 1 | compare the quantity with the stock of the listing the item references | not executed | CartItems.UpdateCheckedAgainstPayloadListing | CartItems.ValidateUpdate |
| backend/orders/serializers.py:52 | on update, ownership is checked on the cart named in the payload, while `update` changes the instance, which may sit in another buyer's cart; the viewset's queryset is every cart item | item 4 in cart 3 of user 5; user 9 with cart 8 sends a PUT for item 4 with {cart 8, listing 1 (stock 10, active), quantity 2}; validate passes and item 4 in user 5's cart gets quantity 2 | check that the item's own cart belongs to the requester | not executed | CartItems.UpdateCheckedAgainstPayloadCart | CartItems.ValidateUpdate |
| backend/users/views/auth_views.py:90 | `serializer.save()` on LoginSerializer, which defines no `create()`; the framework's default `create()` raises NotImplementedError, which the view does not catch | any login whose credentials authenticate, e.g. {"email": "a@b.c", "password": "pw"} | issue the tokens without saving (the login tests expect 200) | not executed; rests on the framework's default `create()` | AuthViews.LoginPostAsWritten | AuthViews.LoginPost |
