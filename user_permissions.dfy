/** backend/users/permissions.py: the ownership and review rules, and how ReviewViewSet
    (backend/users/views/review_views.py) combines them with the framework's
    `IsAuthenticatedOrReadOnly`. */
module UserPermissions {
  import opened Common
  import opened Http

  /** The review fields the rules read: its author and the owner of the reviewed listing. */
  datatype Review = Review(author: UserId, listingOwner: UserId)

  /** `IsOwnerOrReadOnly.has_object_permission`: reads always, writes only by `obj.user`. */
  function IsOwnerOrReadOnly(request: Request, objUser: UserId): (allowed: bool)
    ensures IsSafeMethod(request.verb) ==> allowed
    ensures !IsSafeMethod(request.verb) ==> (allowed <==> request.user == Member(objUser))
  {
    if IsSafeMethod(request.verb) then true else request.user == Member(objUser)
  }

  /** An anonymous requester owns nothing, so it may only read. */
  lemma AnonymousOnlyReads(request: Request, objUser: UserId)
    requires request.user.Anonymous?
    ensures IsOwnerOrReadOnly(request, objUser) <==> IsSafeMethod(request.verb)
  {
  }

  /** `IsAllowedToReview.has_permission`. `listingField` is `request.data.get('listing')`,
      None when absent or falsy; `owners` maps each stored listing to its owner. A listing
      id with no row makes `Listing.objects.get` raise DoesNotExist. */
  function IsAllowedToReview(request: Request, action: string, listingField: Option<ListingId>,
                             owners: map<ListingId, UserId>): (r: Result<bool, Exception>)
    ensures action != "create" ==> r == Success(true)
    ensures action == "create" && listingField.None? ==> r == Success(true)
    ensures action == "create" && listingField.Some? && listingField.value !in owners ==> r == Failure(DoesNotExist)
    ensures action == "create" && listingField.Some? && listingField.value in owners ==>
      r == Success(request.user != Member(owners[listingField.value]))
  {
    if action == "create" && listingField.Some? then
      if listingField.value in owners then Success(Member(owners[listingField.value]) != request.user)
      else Failure(DoesNotExist)
    else Success(true)
  }

  /** The object actions on which a listing owner is refused. */
  predicate IsChangeAction(action: string)
  {
    action == "update" || action == "partial_update" || action == "destroy"
  }

  /** `IsAllowedToReview.has_object_permission`: nobody changes a review of their own listing. */
  function IsAllowedToReviewObject(request: Request, action: string, review: Review): (allowed: bool)
    ensures IsChangeAction(action) ==> (allowed <==> request.user != Member(review.listingOwner))
    ensures !IsChangeAction(action) ==> allowed
  {
    if IsChangeAction(action) then request.user != Member(review.listingOwner) else true
  }

  /** `IsAllowedToDestroyReview.has_object_permission`: only the author passes, whatever the
      action. */
  function IsAllowedToDestroyReview(request: Request, review: Review): (allowed: bool)
    ensures allowed <==> request.user == Member(review.author)
  {
    request.user == Member(review.author)
  }

  /** ReviewViewSet on an existing review: every permission's request-level check, then every
      object-level check. Only `IsAllowedToReview` and `IsAllowedToDestroyReview` define an
      object-level check; the others pass it. */
  function ReviewObjectAccess(request: Request, action: string, review: Review, owners: map<ListingId, UserId>): (allowed: bool)
    ensures allowed <==> request.user == Member(review.author) &&
                         (IsChangeAction(action) ==> review.author != review.listingOwner)
  {
    && IsAuthenticatedOrReadOnly(request.verb, request.user)
    && IsAllowedToReview(request, action, None, owners) == Success(true)
    && IsAllowedToReviewObject(request, action, review)
    && IsAllowedToDestroyReview(request, review)
  }

  /** A review is destroyed only by its author, and only when the author does not own the
      reviewed listing. */
  lemma DestroyOnlyByAuthorOfOthersListing(request: Request, review: Review, owners: map<ListingId, UserId>)
    requires request.verb == "DELETE"
    ensures ReviewObjectAccess(request, "destroy", review, owners) <==>
      request.user == Member(review.author) && review.author != review.listingOwner
  {
  }

  /** Because the author check applies to every object action, a user who did not write a
      review cannot even retrieve it. */
  lemma OnlyAuthorReachesReview(request: Request, action: string, review: Review, owners: map<ListingId, UserId>)
    requires request.user != Member(review.author)
    ensures !ReviewObjectAccess(request, action, review, owners)
  {
  }

  /** ReviewViewSet on `create`: the framework check comes first, so an anonymous POST is
      refused before any listing lookup. */
  function ReviewCreateAccess(request: Request, listingField: Option<ListingId>, owners: map<ListingId, UserId>): (r: Result<bool, Exception>)
    ensures request.verb == "POST" && request.user.Anonymous? ==> r == Success(false)
    ensures request.user.Member? && listingField.Some? && listingField.value in owners ==>
      (r == Success(true) <==> owners[listingField.value] != request.user.id)
  {
    if !IsAuthenticatedOrReadOnly(request.verb, request.user) then Success(false)
    else IsAllowedToReview(request, "create", listingField, owners)
  }
}
