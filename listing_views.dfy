/** backend/listings/views/listing_views.py: `ListingViewSet`, whose only own code is
    `partial_update` with its "active-only" branch, behind the framework's
    `IsAuthenticatedOrReadOnly`. Object lookup and the serializer's field validation are
    the framework's: the looked-up listing and the validation result are inputs. */
module ListingViews {
  import opened Common
  import opened Http

  /** A stored listing (backend/listings/models.py:6-14); the price is in cents and the
      image is not part of this model. */
  class Listing {
    var title: string
    var description: string
    var priceCents: nat
    var quantity: nat
    var owner: UserId
    var active: bool
    var category: nat

    constructor (title: string, description: string, priceCents: nat, quantity: nat, owner: UserId, category: nat)
      ensures this.title == title && this.description == description && this.priceCents == priceCents
      ensures this.quantity == quantity && this.owner == owner && this.category == category
      ensures active
    {
      this.title := title;
      this.description := description;
      this.priceCents := priceCents;
      this.quantity := quantity;
      this.owner := owner;
      this.active := true;
      this.category := category;
    }

    /** The serializer's representation of the listing. */
    function Representation(): (j: Json)
      reads this
      ensures j.JObject? && "active" in j.fields && j.fields["active"] == JBool(active)
    {
      JObject(map["title" := JStr(title), "description" := JStr(description), "price" := JInt(priceCents),
                  "quantity" := JInt(quantity), "owner" := JInt(owner), "active" := JBool(active),
                  "category" := JInt(category)])
    }
  }

  /** A partial update's validated data: the fields present in the payload. */
  datatype ListingChanges = ListingChanges(
    title: Option<string>, description: Option<string>, priceCents: Option<nat>, quantity: Option<nat>,
    owner: Option<UserId>, active: Option<bool>, category: Option<nat>)

  /** `ListingViewSet.permission_classes`: anyone may read; writing takes an authenticated
      requester. */
  predicate HasPermission(request: Request): (allowed: bool)
    ensures allowed <==> request.verb in {"GET", "HEAD", "OPTIONS"} || request.user.Member?
  {
    IsAuthenticatedOrReadOnly(request.verb, request.user)
  }

  lemma ReadsAreOpen(request: Request)
    requires IsSafeMethod(request.verb)
    ensures HasPermission(request)
  {
  }

  lemma AnonymousWritesRefused(request: Request)
    requires request.user.Anonymous?
    ensures HasPermission(request) <==> request.verb in {"GET", "HEAD", "OPTIONS"}
  {
  }

  /** `ListingViewSet.partial_update`: invalid data raises before anything is written; data
      carrying `active` writes `active` alone and drops the other fields; otherwise every
      validated field is written. The response shows the listing as it now is. */
  method PartialUpdate(instance: Listing, validation: Result<ListingChanges, Json>) returns (r: ViewOutcome)
    modifies instance
    ensures validation.Failure? ==> r == Raise(ValidationError(validation.error)) && unchanged(instance)
    ensures validation.Success? ==>
      && r.Respond? && r.response.status == HTTP_200_OK
      && r.response.data == instance.Representation()
      && r.response.cookies == map[]
    ensures validation.Success? && validation.value.active.Some? ==>
      && instance.active == validation.value.active.value
      && instance.title == old(instance.title) && instance.description == old(instance.description)
      && instance.priceCents == old(instance.priceCents) && instance.quantity == old(instance.quantity)
      && instance.owner == old(instance.owner) && instance.category == old(instance.category)
    ensures validation.Success? && validation.value.active.None? ==>
      var c := validation.value;
      && instance.title == c.title.GetOr(old(instance.title))
      && instance.description == c.description.GetOr(old(instance.description))
      && instance.priceCents == c.priceCents.GetOr(old(instance.priceCents))
      && instance.quantity == c.quantity.GetOr(old(instance.quantity))
      && instance.owner == c.owner.GetOr(old(instance.owner))
      && instance.active == old(instance.active)
      && instance.category == c.category.GetOr(old(instance.category))
  {
    if validation.Failure? {
      return Raise(ValidationError(validation.error));
    }
    var changes := validation.value;
    if changes.active.Some? {
      instance.active := changes.active.value;
    } else {
      instance.title := changes.title.GetOr(instance.title);
      instance.description := changes.description.GetOr(instance.description);
      instance.priceCents := changes.priceCents.GetOr(instance.priceCents);
      instance.quantity := changes.quantity.GetOr(instance.quantity);
      instance.owner := changes.owner.GetOr(instance.owner);
      instance.category := changes.category.GetOr(instance.category);
    }
    var response := new Response(instance.Representation(), HTTP_200_OK);
    return Respond(response);
  }

  /** PATCH {"active": false}, with a new title in the same payload: the listing is stored
      and returned inactive, with status 200, and the title is not written. */
  method Deactivate(instance: Listing, newTitle: string) returns (r: ViewOutcome)
    modifies instance
    ensures r.Respond? && r.response.status == HTTP_200_OK
    ensures !instance.active
    ensures r.response.data.JObject? && "active" in r.response.data.fields && r.response.data.fields["active"] == JBool(false)
    ensures instance.title == old(instance.title)
  {
    r := PartialUpdate(instance, Success(ListingChanges(Some(newTitle), None, None, None, None, Some(false), None)));
  }
}
