/** backend/orders/permissions.py: the permission that keeps carts from being deleted, and
    the cart viewset that uses it alone (backend/orders/views/cart_views.py). */
module OrderPermissions {
  import opened Http

  /** `IsNotAllowedToDestroy.has_permission(request, view)`; `action` stands for the view. */
  function IsNotAllowedToDestroy(request: Request, action: string): (allowed: bool)
    ensures request.verb == "DELETE" ==> !allowed
    ensures request.verb != "DELETE" ==> allowed
  {
    request.verb != "DELETE"
  }

  /** The decision reads the method only: requests that agree on it get the same answer,
      whoever sends them and whichever action they target. */
  lemma DecisionIgnoresUserAndView(r1: Request, r2: Request, a1: string, a2: string)
    requires r1.verb == r2.verb
    ensures IsNotAllowedToDestroy(r1, a1) == IsNotAllowedToDestroy(r2, a2)
  {
  }

  /** `CartViewSet` checks `IsNotAllowedToDestroy` and nothing else, so its request-level
      check is that permission; object-level checks of the base class always pass. */
  function CartViewSetPermits(request: Request, action: string): (allowed: bool)
    ensures allowed <==> request.verb != "DELETE"
  {
    IsNotAllowedToDestroy(request, action)
  }

  /** No request, from any user, deletes a cart through the API. */
  lemma CartsAreNeverDeleted(user: Requester, action: string)
    ensures !CartViewSetPermits(Request("DELETE", user), action)
  {
  }
}
