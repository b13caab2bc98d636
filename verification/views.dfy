/**
 * The read-only routes of app/main/routes.py: where the brand link sends a
 * user, the repair history a client sees on the home page and on the client
 * dashboard, and the elevators a booking form offers.
 */
module Views {
  import opened Records
  import opened Gate

  /** The pages a redirect can land on. */
  datatype Page =
    | Index
    | ManagerDashboard
    | ReceptionistDashboard
    | MechanicDashboard
    | StockKeeperDashboard

  /** The role whose gate stands in front of a dashboard; the index page has none. */
  function DashboardRole(p: Page): (r: Option<string>)
    ensures r.None? <==> p == Index
  {
    match p
    case Index => None
    case ManagerDashboard => Some(ManagerRole)
    case ReceptionistDashboard => Some(ReceptionistRole)
    case MechanicDashboard => Some(MechanicRole)
    case StockKeeperDashboard => Some(StockKeeperRole)
  }

  /** The four roles that own a dashboard. */
  predicate IsStaffRole(role: string) {
    role == ManagerRole || role == ReceptionistRole || role == MechanicRole || role == StockKeeperRole
  }

  /**
   * `home_redirect`: an employee whose role owns a dashboard goes to that
   * dashboard; everybody else (anonymous users, clients, employees with any
   * other role string) goes to the index page.
   */
  function HomeRedirect(user: Actor): (p: Page)
    ensures p != Index <==> user.Employee? && IsStaffRole(user.role)
    ensures p != Index ==> DashboardRole(p) == Some(user.role)
  {
    if !user.IsAuthenticated() then Index
    else
      match user.RoleAttr()
      case Some(r) =>
        if r == ManagerRole then ManagerDashboard
        else if r == ReceptionistRole then ReceptionistDashboard
        else if r == MechanicRole then MechanicDashboard
        else if r == StockKeeperRole then StockKeeperDashboard
        else Index
      case None => Index
  }

  /**
   * The redirect never strands a user: whoever is sent to a dashboard passes
   * the role gate in front of it.
   */
  lemma RedirectPassesGate<A, R>(user: Actor, f: A -> R, args: A)
    requires HomeRedirect(user) != Index
    ensures RoleRequired(DashboardRole(HomeRedirect(user)).value, f, user, args) == Passed(f(args))
  {
  }

  /** Each staff role has its own dashboard: two users redirected to the same dashboard share a role. */
  lemma RedirectDeterminesRole(u: Actor, v: Actor)
    requires HomeRedirect(u) != Index
    requires HomeRedirect(u) == HomeRedirect(v)
    ensures u.Employee? && v.Employee? && u.role == v.role
  {
  }

  /** The repairs booked by one client (`Repair.query.filter_by(client_id=...)`). */
  function History(repairs: map<nat, Repair>, clientId: nat): (h: map<nat, Repair>)
    ensures h.Keys <= repairs.Keys
    ensures forall id :: id in h ==> h[id] == repairs[id] && h[id].clientId == clientId
    ensures forall id :: id in repairs && repairs[id].clientId == clientId ==> id in h
  {
    map id | id in repairs && repairs[id].clientId == clientId :: repairs[id]
  }

  /**
   * Every repair shows up in exactly one history: its own client's. In
   * particular no client ever sees another client's repair.
   */
  lemma HistoriesPartition(repairs: map<nat, Repair>, id: nat)
    requires id in repairs
    ensures id in History(repairs, repairs[id].clientId)
    ensures forall c :: id in History(repairs, c) ==> c == repairs[id].clientId
  {
  }

  /** Two different clients' histories share no repair. */
  lemma DistinctHistoriesDisjoint(repairs: map<nat, Repair>, a: nat, b: nat)
    requires a != b
    ensures History(repairs, a).Keys !! History(repairs, b).Keys
  {
  }

  /**
   * `index`: an authenticated user without a (truthy) role gets the repair
   * history recorded under their own id; everybody else gets the plain page.
   */
  function IndexView(user: Actor, repairs: map<nat, Repair>): (v: Option<map<nat, Repair>>)
    ensures v.Some? <==> user.IsAuthenticated() && !user.HasRole()
    ensures v.Some? ==> v.value == History(repairs, user.id)
  {
    if user.IsAuthenticated() && !user.HasRole() then Some(History(repairs, user.id)) else None
  }

  /** What the client dashboard answers. */
  datatype DashboardView = LoginPage | ClientsOnlyRedirect | RepairList(repairs: map<nat, Repair>)

  /**
   * `client_dashboard`: login is required, users with a role are sent away,
   * and a client sees exactly their own repairs, the same list as on the
   * index page.
   */
  function ClientDashboard(user: Actor, repairs: map<nat, Repair>): (v: DashboardView)
    ensures !user.IsAuthenticated() ==> v == LoginPage
    ensures user.IsAuthenticated() && user.HasRole() ==> v == ClientsOnlyRedirect
    ensures v.RepairList? <==> IndexView(user, repairs).Some?
    ensures v.RepairList? ==> v.repairs == IndexView(user, repairs).value
  {
    if !user.IsAuthenticated() then LoginPage
    else if user.HasRole() then ClientsOnlyRedirect
    else RepairList(History(repairs, user.id))
  }

  /** The elevators a booking or rescheduling form offers (`filter_by(status="Available")`). */
  function AvailableElevators(elevators: map<nat, Elevator>): (ids: set<nat>)
    ensures ids <= elevators.Keys
    ensures forall e :: e in elevators ==> (e in ids <==> elevators[e].status == Available)
  {
    set e | e in elevators && elevators[e].status == Available
  }

  /** The elevators the unblock form lists (`status != "Available"`). */
  function UnavailableElevators(elevators: map<nat, Elevator>): (ids: set<nat>)
    ensures ids <= elevators.Keys
    ensures forall e :: e in elevators ==> (e in ids <==> elevators[e].status != Available)
  {
    set e | e in elevators && elevators[e].status != Available
  }

  /** The two forms split the elevators between them, with no overlap. */
  lemma ElevatorListsPartition(elevators: map<nat, Elevator>)
    ensures AvailableElevators(elevators) + UnavailableElevators(elevators) == elevators.Keys
    ensures AvailableElevators(elevators) !! UnavailableElevators(elevators)
  {
  }
}
