/**
 * The role gate that every staff route sits behind (`role_required` in
 * app/utils.py): it lets a request through to the wrapped route only when the
 * user is authenticated and the user's role string equals the required one.
 */
module Gate {
  import opened Records

  /**
   * What the gate does with a request: hands it to the wrapped route and
   * returns that route's answer, refuses it with a redirect to the login page,
   * or fails with an uncaught exception.
   */
  datatype Gated<R> = Passed(value: R) | Denied | Crashed

  /**
   * `role_required(role)(f)(*args)`. The condition reads `current_user.role`
   * once the user is known to be authenticated; a client row has no `role`
   * attribute, so for a client that read raises and the request crashes
   * instead of being refused. Either way the wrapped route is never run.
   */
  function RoleRequired<A, R>(role: string, f: A -> R, user: Actor, args: A): (g: Gated<R>)
    ensures !user.IsAuthenticated() ==> g.Denied?
    ensures user.Client? ==> g.Crashed?
    ensures user.Employee? && user.role != role ==> g.Denied?
    ensures g.Passed? <==> user.Employee? && user.role == role
    ensures g.Passed? ==> g.value == f(args)
  {
    if !user.IsAuthenticated() then Denied
    else
      match user.RoleAttr()
      case None => Crashed
      case Some(r) => if r != role then Denied else Passed(f(args))
  }

  /**
   * A refused or crashed request never reaches the wrapped route: swapping
   * the route and its arguments for any others changes nothing.
   */
  lemma RefusalIgnoresRoute<A, R>(role: string, f: A -> R, g: A -> R, user: Actor, x: A, y: A)
    requires !(user.Employee? && user.role == role)
    ensures RoleRequired(role, f, user, x) == RoleRequired(role, g, user, y)
    ensures !RoleRequired(role, f, user, x).Passed?
  {
  }

  /**
   * The check is string equality and nothing else: there is no hierarchy, so
   * no user passes the gates of two different roles.
   */
  lemma NoRoleHierarchy<A, R>(r1: string, r2: string, f: A -> R, user: Actor, args: A)
    requires RoleRequired(r1, f, user, args).Passed?
    requires RoleRequired(r2, f, user, args).Passed?
    ensures r1 == r2
  {
  }

  /** In particular a manager is turned away from a receptionist route. */
  lemma ManagerIsNotReceptionist<A, R>(id: nat, f: A -> R, args: A)
    ensures RoleRequired(ReceptionistRole, f, Employee(id, ManagerRole), args).Denied?
  {
  }
}
