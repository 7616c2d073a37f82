/**
 * The four role guards wrapped around the role-specific views. A guard looks
 * at the current visitor and either runs the view or sends the visitor to
 * the login page with a danger message.
 */
module Decorators {
  import opened Models

  /**
   * What a guard can see of `current_user`: whether it has a `username`
   * attribute, whether it is authenticated, and the name of its class.
   */
  datatype Visitor = Visitor(hasUsername: bool, isAuthenticated: bool, className: string)

  /** The anonymous visitor of a request without a session: no username, not authenticated. */
  const Anonymous: Visitor := Visitor(false, false, "AnonymousUserMixin")

  /** A visitor whose session resolved to an active row of the table of `r` (so `is_authenticated` holds). */
  function SessionVisitor(r: Role): Visitor {
    Visitor(true, true, ClassName(r))
  }

  /** The result of a guarded view: the view's own response, or a redirect to login. */
  datatype Guarded<T> = ViewCalled(response: T) | RedirectToLogin(message: string)

  /** The condition every guard tests, for the role it demands. */
  predicate Permits(required: Role, v: Visitor) {
    v.hasUsername && v.isAuthenticated && v.className == ClassName(required)
  }

  /** The danger message of the guard of `r`. */
  function Denial(r: Role): string {
    match r
    case Admin => "Admin access required."
    case Customer => "Customer access required."
    case Insurer => "Insurer access required."
    case Regulator => "Regulator access required."
  }

  function Guard<T>(required: Role, message: string, v: Visitor, view: T): (g: Guarded<T>)
    ensures g.ViewCalled? <==> Permits(required, v)
    ensures g.ViewCalled? ==> g.response == view
    ensures g.RedirectToLogin? ==> g.message == message
  {
    if !v.hasUsername || !v.isAuthenticated || v.className != ClassName(required) then
      RedirectToLogin(message)
    else
      ViewCalled(view)
  }

  /** `admin_required`. */
  function AdminRequired<T>(v: Visitor, view: T): (g: Guarded<T>)
    ensures g.ViewCalled? <==> v.hasUsername && v.isAuthenticated && v.className == "Admin"
    ensures g.ViewCalled? ==> g.response == view
    ensures g.RedirectToLogin? ==> g.message == "Admin access required."
  {
    Guard(Admin, Denial(Admin), v, view)
  }

  /** `customer_required`. */
  function CustomerRequired<T>(v: Visitor, view: T): (g: Guarded<T>)
    ensures g.ViewCalled? <==> v.hasUsername && v.isAuthenticated && v.className == "Customer"
    ensures g.ViewCalled? ==> g.response == view
    ensures g.RedirectToLogin? ==> g.message == "Customer access required."
  {
    Guard(Customer, Denial(Customer), v, view)
  }

  /** `insurer_required`. */
  function InsurerRequired<T>(v: Visitor, view: T): (g: Guarded<T>)
    ensures g.ViewCalled? <==> v.hasUsername && v.isAuthenticated && v.className == "Insurer"
    ensures g.ViewCalled? ==> g.response == view
    ensures g.RedirectToLogin? ==> g.message == "Insurer access required."
  {
    Guard(Insurer, Denial(Insurer), v, view)
  }

  /** `regulator_required`. */
  function RegulatorRequired<T>(v: Visitor, view: T): (g: Guarded<T>)
    ensures g.ViewCalled? <==> v.hasUsername && v.isAuthenticated && v.className == "Regulator"
    ensures g.ViewCalled? ==> g.response == view
    ensures g.RedirectToLogin? ==> g.message == "Regulator access required."
  {
    Guard(Regulator, Denial(Regulator), v, view)
  }

  /** The guard of each role, as a route would be decorated with it. */
  function RoleRequired<T>(r: Role, v: Visitor, view: T): Guarded<T> {
    match r
    case Admin => AdminRequired(v, view)
    case Customer => CustomerRequired(v, view)
    case Insurer => InsurerRequired(v, view)
    case Regulator => RegulatorRequired(v, view)
  }

  /** The roles exclude each other: no visitor gets past the guards of two different roles. */
  lemma AtMostOneGuardPasses<T>(r1: Role, r2: Role, v: Visitor, view: T)
    requires RoleRequired(r1, v, view).ViewCalled?
    requires RoleRequired(r2, v, view).ViewCalled?
    ensures r1 == r2
  {
  }

  /** A visitor without a session is turned away by every guard. */
  lemma AnonymousPassesNoGuard<T>(r: Role, view: T)
    ensures RoleRequired(r, Anonymous, view) == RedirectToLogin(Denial(r))
  {
    match r
    case Admin =>
    case Customer =>
    case Insurer =>
    case Regulator =>
  }

  /** A signed-in principal passes the guard of its own role and no other. */
  lemma SessionPassesOwnGuardOnly<T>(own: Role, r: Role, view: T)
    ensures RoleRequired(r, SessionVisitor(own), view).ViewCalled? <==> r == own
  {
  }
}
