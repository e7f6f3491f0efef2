/** backend/orders/serializers.py, CartItemSerializer: admission of an item into a cart.
    The store is abstract: listings (stock, active flag, owner), carts (their buyer) and the
    cart-item table. `validate` is a fixed chain of checks whose first failure decides the
    error; `create` inserts a row and `update` rewrites only the quantity. */
module CartItems {
  import opened Common
  import opened Http

  /** The listing fields the serializer reads: `quantity` (the stock), `active`, `owner`. */
  datatype Listing = Listing(stock: nat, active: bool, owner: UserId)

  /** A cart-item row: foreign keys to its cart and listing, and the quantity. */
  datatype CartItem = CartItem(cart: CartId, listing: ListingId, quantity: int)

  /** The model's default for an omitted quantity. */
  const DefaultQuantity: int := 1

  /** The validated attributes: `attrs.get("cart")`, `attrs.get("listing")`,
      `attrs.get("quantity")`, each possibly absent. */
  datatype Attrs = Attrs(cart: Option<CartId>, listing: Option<ListingId>, quantity: Option<int>)

  /** Why `validate` rejects. All but the first are `serializers.ValidationError`s; the first
      is the AttributeError raised when a quantity is given without a listing, because the
      stock comparison reads `listing.quantity` on None. */
  datatype CartItemError =
    | NoListingToCompare
    | QuantityAboveStock
    | QuantityBelowOne
    | CartMissing
    | AlreadyInCart
    | CartNotOwned
    | ListingMissing
    | ListingInactive
  {
    predicate IsValidationError()
    {
      !NoListingToCompare?
    }

    function Message(): string
    {
      match this
      case NoListingToCompare => "'NoneType' object has no attribute 'quantity'"
      case QuantityAboveStock => "Quantity is greater than the available quantity"
      case QuantityBelowOne => "Quantity cannot be less than 1"
      case CartMissing => "Cart does not exist"
      case AlreadyInCart => "Item already exists in cart"
      case CartNotOwned => "Cart does not belong to the user"
      case ListingMissing => "Listing does not exist"
      case ListingInactive => "Listing is not active"
    }
  }

  /** The references in `attrs` name stored rows: the framework's primary-key fields resolve
      them before `validate` runs. */
  predicate Resolved(listings: map<ListingId, Listing>, carts: map<CartId, UserId>, attrs: Attrs)
  {
    (attrs.cart.Some? ==> attrs.cart.value in carts) &&
    (attrs.listing.Some? ==> attrs.listing.value in listings)
  }

  /** `CartItem.objects.filter(cart=cart, listing=listing).exists()`. */
  predicate InCart(items: map<ItemId, CartItem>, cart: CartId, listing: ListingId)
  {
    exists id :: id in items && items[id].cart == cart && items[id].listing == listing
  }

  /** The collection invariant: at most one item per (cart, listing) pair. */
  ghost predicate UniquePairs(items: map<ItemId, CartItem>)
  {
    forall i, j :: i in items && j in items && items[i].cart == items[j].cart && items[i].listing == items[j].listing ==> i == j
  }

  /** Order-free statement of when an item may be saved: everything `validate` checks. */
  ghost predicate Admissible(listings: map<ListingId, Listing>, carts: map<CartId, UserId>, items: map<ItemId, CartItem>,
                             attrs: Attrs, requester: Requester, isUpdate: bool)
  {
    && attrs.cart.Some? && attrs.cart.value in carts
    && attrs.listing.Some? && attrs.listing.value in listings
    && (attrs.quantity.Some? ==> 1 <= attrs.quantity.value <= listings[attrs.listing.value].stock)
    && (!isUpdate ==> !InCart(items, attrs.cart.value, attrs.listing.value))
    && requester == Member(carts[attrs.cart.value])
    && listings[attrs.listing.value].active
  }

  /** `CartItemSerializer.validate(attrs)`; `isUpdate` says whether the serializer holds an
      instance. On success `attrs` come back unchanged. */
  function Validate(listings: map<ListingId, Listing>, carts: map<CartId, UserId>, items: map<ItemId, CartItem>,
                    attrs: Attrs, requester: Requester, isUpdate: bool): (r: Result<Attrs, CartItemError>)
    requires Resolved(listings, carts, attrs)
    ensures r.Success? <==> Admissible(listings, carts, items, attrs, requester, isUpdate)
    ensures r.Success? ==> r.value == attrs
    ensures attrs.quantity.Some? && attrs.listing.Some? && attrs.quantity.value > listings[attrs.listing.value].stock ==>
      r == Failure(QuantityAboveStock)
    ensures (attrs.quantity.Some? && attrs.listing.Some? && attrs.quantity.value <= listings[attrs.listing.value].stock
             && attrs.quantity.value < 1) ==> r == Failure(QuantityBelowOne)
    ensures attrs.quantity.Some? && attrs.listing.Some? && 1 <= attrs.quantity.value <= listings[attrs.listing.value].stock ==>
      r != Failure(QuantityAboveStock) && r != Failure(QuantityBelowOne) && r != Failure(NoListingToCompare)
    ensures isUpdate ==> r != Failure(AlreadyInCart)
  {
    var listing, cart, quantity := attrs.listing, attrs.cart, attrs.quantity;
    if quantity.Some? && listing.None? then Failure(NoListingToCompare)
    else if quantity.Some? && quantity.value > listings[listing.value].stock then Failure(QuantityAboveStock)
    else if quantity.Some? && quantity.value < 1 then Failure(QuantityBelowOne)
    else if cart.None? then Failure(CartMissing)
    else if !isUpdate && listing.Some? && InCart(items, cart.value, listing.value) then Failure(AlreadyInCart)
    else if requester != Member(carts[cart.value]) then Failure(CartNotOwned)
    else if listing.None? then Failure(ListingMissing)
    else if !listings[listing.value].active then Failure(ListingInactive)
    else Success(attrs)
  }

  /** One rule of the chain: whether it fails, and the error it then raises. */
  datatype Rule = Rule(fails: bool, error: CartItemError)

  /** The rules of `validate` in the order the source runs them. The guards inside a rule
      only keep lookups defined; an earlier rule fires whenever a guard is false. */
  function Rules(listings: map<ListingId, Listing>, carts: map<CartId, UserId>, items: map<ItemId, CartItem>,
                 attrs: Attrs, requester: Requester, isUpdate: bool): seq<Rule>
    requires Resolved(listings, carts, attrs)
  {
    var listing, cart, quantity := attrs.listing, attrs.cart, attrs.quantity;
    [ Rule(quantity.Some? && listing.None?, NoListingToCompare),
      Rule(quantity.Some? && listing.Some? && quantity.value > listings[listing.value].stock, QuantityAboveStock),
      Rule(quantity.Some? && quantity.value < 1, QuantityBelowOne),
      Rule(cart.None?, CartMissing),
      Rule(!isUpdate && cart.Some? && listing.Some? && InCart(items, cart.value, listing.value), AlreadyInCart),
      Rule(cart.Some? && requester != Member(carts[cart.value]), CartNotOwned),
      Rule(listing.None?, ListingMissing),
      Rule(listing.Some? && !listings[listing.value].active, ListingInactive) ]
  }

  /** The error of the first failing rule, if any. */
  function FirstFailure(rules: seq<Rule>): Option<CartItemError>
  {
    if rules == [] then None
    else if rules[0].fails then Some(rules[0].error)
    else FirstFailure(rules[1..])
  }

  /** A rule list that fails exactly at position `k`. */
  lemma {:induction false} FirstFailureAt(rules: seq<Rule>, k: nat)
    requires k < |rules| && rules[k].fails
    requires forall j :: 0 <= j < k ==> !rules[j].fails
    ensures FirstFailure(rules) == Some(rules[k].error)
  {
    if k > 0 {
      FirstFailureAt(rules[1..], k - 1);
    }
  }

  /** A rule list none of whose rules fail. */
  lemma {:induction false} FirstFailureNone(rules: seq<Rule>)
    requires forall j :: 0 <= j < |rules| ==> !rules[j].fails
    ensures FirstFailure(rules) == None
  {
    if rules != [] {
      FirstFailureNone(rules[1..]);
    }
  }

  /** The error `validate` raises is the one of the first failing rule, in source order. */
  lemma ValidateFollowsRuleOrder(listings: map<ListingId, Listing>, carts: map<CartId, UserId>, items: map<ItemId, CartItem>,
                                 attrs: Attrs, requester: Requester, isUpdate: bool)
    requires Resolved(listings, carts, attrs)
    ensures Validate(listings, carts, items, attrs, requester, isUpdate) ==
      match FirstFailure(Rules(listings, carts, items, attrs, requester, isUpdate))
      case None => Success(attrs)
      case Some(e) => Failure(e)
  {
    var rules := Rules(listings, carts, items, attrs, requester, isUpdate);
    var listing, cart, quantity := attrs.listing, attrs.cart, attrs.quantity;
    if quantity.Some? && listing.None? { FirstFailureAt(rules, 0); }
    else if quantity.Some? && quantity.value > listings[listing.value].stock { FirstFailureAt(rules, 1); }
    else if quantity.Some? && quantity.value < 1 { FirstFailureAt(rules, 2); }
    else if cart.None? { FirstFailureAt(rules, 3); }
    else if !isUpdate && listing.Some? && InCart(items, cart.value, listing.value) { FirstFailureAt(rules, 4); }
    else if requester != Member(carts[cart.value]) { FirstFailureAt(rules, 5); }
    else if listing.None? { FirstFailureAt(rules, 6); }
    else if !listings[listing.value].active { FirstFailureAt(rules, 7); }
    else { FirstFailureNone(rules); }
  }

  /** The row `create(validated_data)` inserts: the model default fills an omitted quantity. */
  function NewItem(validated: Attrs): (item: CartItem)
    requires validated.cart.Some? && validated.listing.Some?
    ensures item.cart == validated.cart.value && item.listing == validated.listing.value
    ensures validated.quantity.None? ==> item.quantity == DefaultQuantity
    ensures validated.quantity.Some? ==> item.quantity == validated.quantity.value
  {
    CartItem(validated.cart.value, validated.listing.value, validated.quantity.GetOr(DefaultQuantity))
  }

  /** Inserting a row for a pair that is not yet in any cart item keeps the pairs unique. */
  lemma InsertKeepsPairsUnique(items: map<ItemId, CartItem>, id: ItemId, item: CartItem)
    requires UniquePairs(items) && id !in items
    requires !InCart(items, item.cart, item.listing)
    ensures UniquePairs(items[id := item])
  {
  }

  /** validate followed by create keeps at most one item per (cart, listing). */
  lemma AdmittedCreateKeepsPairsUnique(listings: map<ListingId, Listing>, carts: map<CartId, UserId>, items: map<ItemId, CartItem>,
                                       attrs: Attrs, requester: Requester, id: ItemId)
    requires Resolved(listings, carts, attrs)
    requires UniquePairs(items) && id !in items
    requires Validate(listings, carts, items, attrs, requester, false).Success?
    ensures UniquePairs(items[id := NewItem(attrs)])
  {
    InsertKeepsPairsUnique(items, id, NewItem(attrs));
  }

  /** The row `update(instance, validated_data)` saves: only the quantity may change, and an
      omitted quantity keeps the old one. */
  function UpdatedItem(instance: CartItem, validated: Attrs): (item: CartItem)
    ensures item.cart == instance.cart && item.listing == instance.listing
    ensures item.quantity == if validated.quantity.Some? then validated.quantity.value else instance.quantity
  {
    instance.(quantity := validated.quantity.GetOr(instance.quantity))
  }

  /** Changing a row without touching its cart or listing keeps the pairs unique. */
  lemma UpdateKeepsPairsUnique(items: map<ItemId, CartItem>, id: ItemId, validated: Attrs)
    requires UniquePairs(items) && id in items
    ensures UniquePairs(items[id := UpdatedItem(items[id], validated)])
  {
    var after := items[id := UpdatedItem(items[id], validated)];
    forall i, j | i in after && j in after && after[i].cart == after[j].cart && after[i].listing == after[j].listing
      ensures i == j
    {
      assert after[i].cart == items[i].cart && after[i].listing == items[i].listing;
      assert after[j].cart == items[j].cart && after[j].listing == items[j].listing;
    }
  }

  /** The cart-item table, written by the serializer's `create` and `update`. Ids are
      handed out in increasing order, as the auto-increment key does. */
  class CartItemTable {
    var items: map<ItemId, CartItem>
    var nextId: ItemId

    ghost predicate Valid()
      reads this
    {
      forall id :: id in items ==> id < nextId
    }

    constructor ()
      ensures Valid() && items == map[]
    {
      items := map[];
      nextId := 1;
    }

    /** `CartItemSerializer.create(validated_data)`: inserts a row. */
    method Create(validated: Attrs) returns (id: ItemId)
      requires Valid() && validated.cart.Some? && validated.listing.Some?
      modifies this
      ensures Valid()
      ensures id !in old(items)
      ensures items == old(items)[id := NewItem(validated)]
    {
      id := nextId;
      items := items[id := NewItem(validated)];
      nextId := nextId + 1;
    }

    /** `CartItemSerializer.update(instance, validated_data)`: rewrites the quantity only. */
    method Update(id: ItemId, validated: Attrs)
      requires Valid() && id in items
      modifies this
      ensures Valid() && nextId == old(nextId)
      ensures items == old(items)[id := UpdatedItem(old(items)[id], validated)]
    {
      items := items[id := UpdatedItem(items[id], validated)];
    }

    /** A POST: `is_valid` (which runs `validate` with no instance), then `save`, which
        calls `create`. A rejection leaves the table as it was. */
    method Post(listings: map<ListingId, Listing>, carts: map<CartId, UserId>, attrs: Attrs, requester: Requester)
      returns (r: Result<ItemId, CartItemError>)
      requires Valid() && Resolved(listings, carts, attrs)
      modifies this
      ensures Valid()
      ensures r.Failure? ==> items == old(items) && Validate(listings, carts, old(items), attrs, requester, false) == Failure(r.error)
      ensures r.Success? ==> Validate(listings, carts, old(items), attrs, requester, false).Success? &&
                             r.value !in old(items) && items == old(items)[r.value := NewItem(attrs)]
      ensures UniquePairs(old(items)) ==> UniquePairs(items)
    {
      var v := Validate(listings, carts, items, attrs, requester, false);
      if v.Failure? {
        return Failure(v.error);
      }
      ghost var before := items;
      var id := Create(v.value);
      if UniquePairs(before) {
        AdmittedCreateKeepsPairsUnique(listings, carts, before, attrs, requester, id);
      }
      return Success(id);
    }

    /** A PUT on item `id`: `is_valid` with the instance present, then `save`, which calls
        `update`. The item keeps its cart and listing whatever the payload names. The check is
        the corrected one of `ValidateUpdate` (see `UpdateCheckedAgainstPayloadListing` and
        `UpdateCheckedAgainstPayloadCart`), so an admitted update keeps every item within its
        listing's stock, and only the buyer of the item's cart changes it. */
    method Put(id: ItemId, listings: map<ListingId, Listing>, carts: map<CartId, UserId>, attrs: Attrs, requester: Requester)
      returns (r: Result<ItemId, CartItemError>)
      requires Valid() && id in items && items[id].listing in listings && items[id].cart in carts
      requires Resolved(listings, carts, attrs)
      modifies this
      ensures Valid()
      ensures r.Failure? ==> items == old(items) && ValidateUpdate(listings, carts, old(items), id, attrs, requester) == Failure(r.error)
      ensures r.Success? ==> ValidateUpdate(listings, carts, old(items), id, attrs, requester).Success? && r.value == id &&
                             items == old(items)[id := UpdatedItem(old(items)[id], attrs)]
      ensures items != old(items) ==> requester == Member(carts[old(items)[id].cart])
      ensures UniquePairs(old(items)) ==> UniquePairs(items)
      ensures StockRespected(listings, old(items)) ==> StockRespected(listings, items)
    {
      var v := ValidateUpdate(listings, carts, items, id, attrs, requester);
      if v.Failure? {
        return Failure(v.error);
      }
      if UniquePairs(items) {
        UpdateKeepsPairsUnique(items, id, v.value);
      }
      if StockRespected(listings, items) {
        CorrectedUpdateKeepsStock(listings, carts, items, id, attrs, requester);
      }
      Update(id, v.value);
      return Success(id);
    }
  }

  /** Every item's quantity is within the stock of the listing it references. */
  ghost predicate StockRespected(listings: map<ListingId, Listing>, items: map<ItemId, CartItem>)
  {
    forall id :: id in items ==> items[id].listing in listings && items[id].quantity <= listings[items[id].listing].stock
  }

  /** As written, an update is checked against the stock of the listing named in the
      payload, while the saved item keeps its own listing: a PUT naming a better-stocked
      listing leaves an item above its own listing's stock. */
  lemma UpdateCheckedAgainstPayloadListing()
    ensures var listings := map[1 := Listing(1, true, 7), 2 := Listing(10, true, 7)];
            var carts := map[3 := 5];
            var items := map[4 := CartItem(3, 1, 1)];
            var attrs := Attrs(Some(3), Some(2), Some(5));
            && StockRespected(listings, items)
            && Validate(listings, carts, items, attrs, Member(5), true) == Success(attrs)
            && !StockRespected(listings, items[4 := UpdatedItem(items[4], attrs)])
  {
    var listings := map[1 := Listing(1, true, 7), 2 := Listing(10, true, 7)];
    var items := map[4 := CartItem(3, 1, 1)];
    var attrs := Attrs(Some(3), Some(2), Some(5));
    var after := items[4 := UpdatedItem(items[4], attrs)];
    assert after[4].quantity > listings[after[4].listing].stock;
  }

  /** As written, an update checks the ownership of the cart named in the payload, while
      the saved item stays in its own cart, and the viewset reaches every item: a buyer who
      names their own cart changes the quantity of an item in someone else's cart. */
  lemma UpdateCheckedAgainstPayloadCart()
    ensures var listings := map[1 := Listing(10, true, 7)];
            var carts := map[3 := 5, 8 := 9];
            var items := map[4 := CartItem(3, 1, 1)];
            var attrs := Attrs(Some(8), Some(1), Some(2));
            && Validate(listings, carts, items, attrs, Member(9), true) == Success(attrs)
            && carts[items[4].cart] != 9
            && UpdatedItem(items[4], attrs) == CartItem(3, 1, 2)
  {
    var listings := map[1 := Listing(10, true, 7)];
    var carts := map[3 := 5, 8 := 9];
    var items := map[4 := CartItem(3, 1, 1)];
    var attrs := Attrs(Some(8), Some(1), Some(2));
    assert Admissible(listings, carts, items, attrs, Member(9), true);
  }

  /** Corrected update check: the quantity is compared with the stock of the listing the
      item actually references, and the item's own cart must belong to the requester; the
      other rules are those of `Validate`. */
  function ValidateUpdate(listings: map<ListingId, Listing>, carts: map<CartId, UserId>, items: map<ItemId, CartItem>,
                          id: ItemId, attrs: Attrs, requester: Requester): (r: Result<Attrs, CartItemError>)
    requires Resolved(listings, carts, attrs) && id in items && items[id].listing in listings && items[id].cart in carts
    ensures r.Success? <==>
      && Validate(listings, carts, items, attrs, requester, true).Success?
      && (attrs.quantity.Some? ==> attrs.quantity.value <= listings[items[id].listing].stock)
      && requester == Member(carts[items[id].cart])
    ensures r.Success? ==> r.value == attrs
    ensures attrs.quantity.Some? && attrs.quantity.value > listings[items[id].listing].stock ==> r == Failure(QuantityAboveStock)
    ensures Validate(listings, carts, items, attrs, requester, true).Failure? ==> r.Failure?
    ensures Validate(listings, carts, items, attrs, requester, true).Success? && requester != Member(carts[items[id].cart]) &&
            !(attrs.quantity.Some? && attrs.quantity.value > listings[items[id].listing].stock) ==>
      r == Failure(CartNotOwned)
  {
    if attrs.quantity.Some? && attrs.quantity.value > listings[items[id].listing].stock then Failure(QuantityAboveStock)
    else match Validate(listings, carts, items, attrs, requester, true)
      case Failure(e) => Failure(e)
      case Success(_) =>
        if requester != Member(carts[items[id].cart]) then Failure(CartNotOwned) else Success(attrs)
  }

  /** With the corrected check, an admitted update keeps every item within its stock. */
  lemma CorrectedUpdateKeepsStock(listings: map<ListingId, Listing>, carts: map<CartId, UserId>, items: map<ItemId, CartItem>,
                                  id: ItemId, attrs: Attrs, requester: Requester)
    requires Resolved(listings, carts, attrs) && id in items && items[id].cart in carts && StockRespected(listings, items)
    requires ValidateUpdate(listings, carts, items, id, attrs, requester).Success?
    ensures StockRespected(listings, items[id := UpdatedItem(items[id], attrs)])
  {
    var after := items[id := UpdatedItem(items[id], attrs)];
    forall k | k in after ensures after[k].listing in listings && after[k].quantity <= listings[after[k].listing].stock {
      if k != id {
        assert after[k] == items[k];
      }
    }
  }
}
