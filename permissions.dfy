/**
 * The store's access-control decisions. A request is its HTTP method and the
 * user the authentication layer attached to it (absent when none was). A
 * user's `perms` is the set of permission names the authentication backends
 * grant it, in the `<app_label>.<codename>` form.
 */
module Permissions {
  import opened Wrappers

  datatype User = User(isStaff: bool, perms: set<string>)

  /** The user attached to unauthenticated requests: not staff, no permissions. */
  const Anonymous: User := User(false, {})

  datatype Request = Request(httpMethod: string, user: Option<User>)

  /** The view a decision is asked for; no decision here looks at it. */
  datatype View = View(name: string)

  /** The methods that never change state. */
  const SafeMethods: set<string> := {"GET", "HEAD", "OPTIONS"}

  /** Read-open, write-restricted: safe methods pass, the rest need a staff user. */
  predicate IsAdminOrReadOnly(request: Request, view: View): (permitted: bool)
    ensures request.user.Some? && request.user.value.isStaff ==> permitted
    ensures request.user.None? ==> (permitted <==> request.httpMethod in SafeMethods)
  {
    if request.httpMethod in SafeMethods then true
    else request.user.Some? && request.user.value.isStaff
  }

  /** `user.has_perm(perm)` over the user's granted permissions. */
  predicate HasPerm(user: User, perm: string): (granted: bool)
  {
    perm in user.perms
  }

  const ViewHistoryPerm: string := "store.view_history"

  /** Access to a customer's history needs the history permission. */
  predicate CanViewCustomerHistory(request: Request, view: View): (granted: bool)
    requires request.user.Some?
    ensures granted ==> ViewHistoryPerm in request.user.value.perms
    ensures request.user.value.perms == {} ==> !granted
  {
    HasPerm(request.user.value, ViewHistoryPerm)
  }

  /** Any safe method is permitted, with or without a user. */
  lemma SafeMethodsArePermitted(request: Request, view: View)
    requires request.httpMethod in SafeMethods
    ensures IsAdminOrReadOnly(request, view)
  {
  }

  /** A method that is not safe is permitted exactly when a staff user is present. */
  lemma WritesNeedStaff(request: Request, view: View)
    requires request.httpMethod !in SafeMethods
    ensures IsAdminOrReadOnly(request, view) <==> request.user.Some? && request.user.value.isStaff
  {
  }

  /** Without a user, or with the anonymous one, every method that is not safe is refused. */
  lemma AnonymousCannotWrite(httpMethod: string, view: View)
    requires httpMethod !in SafeMethods
    ensures !IsAdminOrReadOnly(Request(httpMethod, None), view)
    ensures !IsAdminOrReadOnly(Request(httpMethod, Some(Anonymous)), view)
  {
  }

  /** The read-open decision depends on the request alone, never on the view. */
  lemma AdminOrReadOnlyIgnoresView(request: Request, v1: View, v2: View)
    ensures IsAdminOrReadOnly(request, v1) == IsAdminOrReadOnly(request, v2)
  {
  }

  /**
   * History access is granted exactly when the user holds the history
   * permission, whatever the method and the view.
   */
  lemma HistoryNeedsOnlyThePermission(request: Request, httpMethod: string, v1: View, v2: View)
    requires request.user.Some?
    ensures CanViewCustomerHistory(request, v1) <==> ViewHistoryPerm in request.user.value.perms
    ensures CanViewCustomerHistory(request, v1) == CanViewCustomerHistory(request.(httpMethod := httpMethod), v2)
  {
  }

  /** A value stored in a permission map: a string, a list or a tuple of values. */
  datatype PermValue = Str(s: string) | List(items: seq<PermValue>) | Tuple(items: seq<PermValue>)

  /** The permission-name template for viewing any model. */
  const ViewTemplate: string := "%(app_label)s.view_%(model_name)s"

  /** A list of permission-name templates, the shape the map's entries normally have. */
  predicate IsTemplateList(v: PermValue)
  {
    v.List? && forall x :: x in v.items ==> x.Str?
  }

  /** The model-permission check whose map of required permissions per method is widened for GET. */
  class ModelPermissions {
    var permsMap: map<string, PermValue>

    /**
     * Takes the inherited map of required permissions and sets its GET entry.
     * The assignment ends in a comma, so what is stored is a 1-tuple holding
     * the list with the view template, not the list itself.
     */
    constructor (inherited: map<string, PermValue>)
      ensures permsMap.Keys == inherited.Keys + {"GET"}
      ensures permsMap["GET"] == Tuple([List([Str(ViewTemplate)])])
      ensures forall m :: m in inherited && m != "GET" ==> permsMap[m] == inherited[m]
      ensures !IsTemplateList(permsMap["GET"])
    {
      permsMap := inherited["GET" := Tuple([List([Str(ViewTemplate)])])];
    }
  }
}
