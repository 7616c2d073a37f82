/**
 * The identity registry behind the portal's routes: session lookup
 * (`load_user`), signup, login, the role dashboard redirect, and the two
 * admin operations on users (enable/disable and edit).
 *
 * Each route is specified by a function on the value of the four tables
 * (`Db`); the `Registry` class holds the tables and its methods are proved
 * to do what those functions say.
 */
module App {
  import opened Wrappers
  import opened Models
  import PyStr

  /** The contents of the four principal tables. */
  datatype Db = Db(
    admins: seq<Principal>,
    customers: seq<Principal>,
    insurers: seq<Principal>,
    regulators: seq<Principal>)
  {
    function Table(r: Role): seq<Principal> {
      match r
      case Admin => admins
      case Customer => customers
      case Insurer => insurers
      case Regulator => regulators
    }

    /** The same tables with the one of `r` replaced by `t`. */
    function WithTable(r: Role, t: seq<Principal>): (d: Db)
      ensures d.Table(r) == t
      ensures forall r2 :: r2 != r ==> d.Table(r2) == Table(r2)
    {
      match r
      case Admin => this.(admins := t)
      case Customer => this.(customers := t)
      case Insurer => this.(insurers := t)
      case Regulator => this.(regulators := t)
    }
  }

  /** Every table satisfies its column constraints. */
  ghost predicate TablesValid(db: Db) {
    forall r :: TableValid(r, db.Table(r))
  }

  /**
   * No username and no email occurs twice anywhere in the four tables taken
   * together: the cross-table uniqueness signup checks for.
   */
  ghost predicate GloballyUnique(db: Db) {
    forall r1, i, r2, j ::
      0 <= i < |db.Table(r1)| && 0 <= j < |db.Table(r2)| && (r1 != r2 || i != j) ==>
        db.Table(r1)[i].username != db.Table(r2)[j].username &&
        db.Table(r1)[i].email != db.Table(r2)[j].email
  }

  // ---------------------------------------------------------------------------
  // Lookups the routes share

  /** `query.get(id)`: the position of the row with that primary key, if any. */
  function IndexOfId(t: seq<Principal>, id: int): (k: Option<nat>)
    ensures k.Some? ==> k.value < |t| && t[k.value].id == id
    ensures k.Some? ==> forall j :: 0 <= j < k.value ==> t[j].id != id
    ensures k.None? ==> forall i :: 0 <= i < |t| ==> t[i].id != id
  {
    if t == [] then None
    else if t[0].id == id then Some(0)
    else match IndexOfId(t[1..], id)
      case None => None
      case Some(k) => Some(k + 1)
  }

  /** `filter_by(email=email).first()`: the position of the first row with that email. */
  function IndexOfEmail(t: seq<Principal>, email: string): (k: Option<nat>)
    ensures k.Some? ==> k.value < |t| && t[k.value].email == email
    ensures k.Some? ==> forall j :: 0 <= j < k.value ==> t[j].email != email
    ensures k.None? ==> forall j :: 0 <= j < |t| ==> t[j].email != email
  {
    if t == [] then None
    else if t[0].email == email then Some(0)
    else match IndexOfEmail(t[1..], email)
      case None => None
      case Some(k) => Some(k + 1)
  }

  /**
   * The user types the admin pages and signup accept (`customer`, `insurer`,
   * `regulator`) and the table each names; `admin` is not among them.
   */
  function NonAdminRole(userType: string): (r: Option<Role>)
    ensures r.Some? <==> userType in {"customer", "insurer", "regulator"}
    ensures r.Some? ==> r.value != Admin && Prefix(r.value) == userType
  {
    if userType == "customer" then Some(Customer)
    else if userType == "insurer" then Some(Insurer)
    else if userType == "regulator" then Some(Regulator)
    else None
  }

  /** The largest primary key in a table (0 when it is empty). */
  function MaxId(t: seq<Principal>): (m: nat)
    ensures forall i :: 0 <= i < |t| ==> t[i].id <= m
    ensures t == [] ==> m == 0
    ensures t != [] ==> exists i :: 0 <= i < |t| && t[i].id == m
  {
    if t == [] then 0
    else
      var m := MaxId(t[1..]);
      if t[0].id > m || |t| == 1 then t[0].id
      else
        var i :| 0 <= i < |t[1..]| && t[1..][i].id == m;
        assert t[i + 1].id == m;
        m
  }

  /** The key the database gives the next row of a table: one past the largest. */
  function NextId(t: seq<Principal>): (n: nat)
    ensures forall i :: 0 <= i < |t| ==> t[i].id < n
  {
    MaxId(t) + 1
  }

  /**
   * Whether storing `staffId` on a row of `t` other than position `except`
   * would break the unique constraint on `staff_id` (nulls never clash).
   */
  predicate StaffIdInUse(t: seq<Principal>, staffId: Option<string>, except: int) {
    staffId.Some? && exists i :: 0 <= i < |t| && i != except && t[i].staffId == staffId
  }

  // ---------------------------------------------------------------------------
  // load_user

  /** `model_map.get(user_type)` in `load_user`: all four tables, admin included. */
  function RoleOfPrefix(s: string): (r: Option<Role>)
    ensures r.Some? ==> Prefix(r.value) == s
    ensures r.None? ==> forall role :: Prefix(role) != s
  {
    if s == "admin" then Some(Admin)
    else if s == "customer" then Some(Customer)
    else if s == "insurer" then Some(Insurer)
    else if s == "regulator" then Some(Regulator)
    else None
  }

  /**
   * What resolving a session identifier gives: a row, None, or the ValueError
   * `int()` raises on a key that is not a number.
   */
  datatype LoadOutcome = LoadedUser(role: Role, user: Principal) | NoUser | ValueErrorRaised

  /**
   * `load_user`: split the identifier at its first underscore, pick the
   * table named by the part before it, and look the rest up as a primary key.
   */
  function LoadUser(db: Db, userId: string): (r: LoadOutcome)
    ensures '_' !in userId ==> r == NoUser
    ensures r.LoadedUser? ==>
      && r.user in db.Table(r.role)
      && PyStr.SplitOnce(userId, '_').Some?
      && PyStr.SplitOnce(userId, '_').value.0 == Prefix(r.role)
      && PyStr.ParseInt(PyStr.SplitOnce(userId, '_').value.1) == Some(r.user.id as int)
  {
    match PyStr.SplitOnce(userId, '_')
    case None => NoUser
    case Some((userType, userPk)) =>
      match RoleOfPrefix(userType)
      case None => NoUser
      case Some(role) =>
        match PyStr.ParseInt(userPk)
        case None => ValueErrorRaised
        case Some(pk) =>
          match IndexOfId(db.Table(role), pk)
          case None => NoUser
          case Some(i) => LoadedUser(role, db.Table(role)[i])
  }

  // ---------------------------------------------------------------------------
  // Route outcomes

  /** The pages a route redirects to. */
  datatype Endpoint =
    | AdminDashboard
    | CustomerDashboard
    | InsurerDashboard
    | RegulatorDashboard
    | LoginPage
    | UserManagement

  /** `dashboard` (and the endpoint list of `login`): each role's home page. */
  function Dashboard(r: Role): (e: Endpoint)
    ensures e != LoginPage && e != UserManagement
  {
    match r
    case Admin => AdminDashboard
    case Customer => CustomerDashboard
    case Insurer => InsurerDashboard
    case Regulator => RegulatorDashboard
  }

  /**
   * The role guard in front of each page (`@admin_required` and its three
   * siblings); the login page has none.
   */
  function GuardOf(e: Endpoint): (g: Option<Role>)
    ensures g.None? <==> e == LoginPage
    ensures e == UserManagement ==> g == Some(Admin)
    ensures forall r :: e == Dashboard(r) ==> g == Some(r)
  {
    match e
    case AdminDashboard => Some(Admin)
    case UserManagement => Some(Admin)
    case CustomerDashboard => Some(Customer)
    case InsurerDashboard => Some(Insurer)
    case RegulatorDashboard => Some(Regulator)
    case LoginPage => None
  }

  /** What signup and the admin user operations report, in place of their flash and redirect. */
  datatype RouteOutcome =
    | InvalidUserType
    | UsernameOrEmailExists
    | SignedUp(role: Role, user: Principal)
    | UserNotFound
    | StatusToggled(username: string, enabled: bool)
    | UserUpdated(username: string)
    | IntegrityError

  /** The tables after a route, and what it reported. */
  datatype Step = Step(db: Db, outcome: RouteOutcome)

  // ---------------------------------------------------------------------------
  // signup

  /** Some row of `t` has that username or that email. */
  predicate Taken(t: seq<Principal>, username: string, email: string) {
    exists i :: 0 <= i < |t| && (t[i].username == username || t[i].email == email)
  }

  /** The duplicate check of signup, over all four tables. */
  predicate TakenAnywhere(db: Db, username: string, email: string) {
    exists r :: r in TableOrder && Taken(db.Table(r), username, email)
  }

  /**
   * `signup` (a validated POST): reject user types other than customer,
   * insurer and regulator; reject a username or email already present in any
   * table; otherwise add one row to the named table, active, with the hashed
   * password, and with the staff id only for insurers and regulators. A staff
   * id already used in that table makes the commit fail and nothing is added.
   */
  function SignupStep(db: Db, username: string, email: string, password: string, userType: string,
                      staffId: Option<string>, hash: string -> string): Step
  {
    match NonAdminRole(userType)
    case None => Step(db, InvalidUserType)
    case Some(role) =>
      if TakenAnywhere(db, username, email) then Step(db, UsernameOrEmailExists)
      else
        var t := db.Table(role);
        var user := NewPrincipal(role, NextId(t), username, email, hash(password), staffId);
        if StaffIdInUse(t, user.staffId, -1) then Step(db, IntegrityError)
        else Step(db.WithTable(role, t + [user]), SignedUp(role, user))
  }

  // ---------------------------------------------------------------------------
  // login

  datatype LoginOutcome =
    | LoggedIn(role: Role, user: Principal, sessionId: string, redirectTo: Endpoint)
    | AccountDisabled
    | InvalidCredentials

  /** One probe of login: the first row of `t` with the email, when the password checks against it. */
  function Probe(t: seq<Principal>, email: string, password: string,
                 check: (string, string) -> bool): (u: Option<Principal>)
    ensures u.Some? ==> u.value in t && u.value.email == email && check(u.value.password, password)
  {
    match IndexOfEmail(t, email)
    case None => None
    case Some(i) => if check(t[i].password, password) then Some(t[i]) else None
  }

  /** Probe the tables of `roles` in turn; the first that accepts decides. */
  function ProbeTables(db: Db, roles: seq<Role>, email: string, password: string,
                       check: (string, string) -> bool): LoginOutcome
  {
    if roles == [] then InvalidCredentials
    else match Probe(db.Table(roles[0]), email, password, check)
      case None => ProbeTables(db, roles[1..], email, password, check)
      case Some(u) =>
        if !u.isActive then AccountDisabled
        else LoggedIn(roles[0], u, GetId(roles[0], u), Dashboard(roles[0]))
  }

  /** `login` (a validated POST): strip the email, then probe Admin, Customer, Insurer, Regulator. */
  function LoginOutcomeOf(db: Db, rawEmail: string, password: string,
                          check: (string, string) -> bool): LoginOutcome
  {
    ProbeTables(db, TableOrder, PyStr.Strip(rawEmail), password, check)
  }

  // ---------------------------------------------------------------------------
  // toggle_user_status

  /**
   * `toggle_user_status`: negate `is_active` of the one row named by user type
   * and key; the admin type is refused and a missing key is a 404.
   */
  function ToggleStep(db: Db, userType: string, userId: nat): Step {
    match NonAdminRole(userType)
    case None => Step(db, InvalidUserType)
    case Some(r) =>
      var t := db.Table(r);
      match IndexOfId(t, userId)
      case None => Step(db, UserNotFound)
      case Some(i) =>
        var u := t[i].(isActive := !t[i].isActive);
        Step(db.WithTable(r, t[i := u]), StatusToggled(u.username, u.isActive))
  }

  // ---------------------------------------------------------------------------
  // edit_user

  /** The fields of the edit form; a field missing from the POST is None. */
  datatype EditForm = EditForm(
    username: Option<string>,
    email: Option<string>,
    staffId: Option<string>,
    password: Option<string>)

  /** The tables the duplicate check of edit_user looks at: Admin is not among them. */
  const EditCheckedTables: seq<Role> := [Customer, Insurer, Regulator]

  /** A row of `t` with a key other than `userId` has the new username or the new email. */
  predicate ClashIn(t: seq<Principal>, userId: nat, username: Option<string>, email: Option<string>) {
    exists i :: 0 <= i < |t| && t[i].id != userId &&
      (Some(t[i].username) == username || Some(t[i].email) == email)
  }

  /**
   * The duplicate check of edit_user as written: it compares against the
   * Customer, Insurer and Regulator tables, and in each of them leaves out every
   * row whose key equals the edited row's key.
   */
  predicate EditConflict(db: Db, userId: nat, username: Option<string>, email: Option<string>) {
    exists r :: r in EditCheckedTables && ClashIn(db.Table(r), userId, username, email)
  }

  /** The edited row: new username and email, staff id for insurer/regulator, password if given. */
  function EditedRow(r: Role, old_: Principal, username: string, email: string, form: EditForm,
                     hash: string -> string): (u: Principal)
    ensures u.id == old_.id && u.isActive == old_.isActive
    ensures u.username == username && u.email == email
    ensures u.staffId == if r == Customer then old_.staffId else form.staffId
    ensures u.password == if form.password.Some? && form.password.value != "" then hash(form.password.value) else old_.password
  {
    old_.(username := username, email := email,
          staffId := if r == Customer then old_.staffId else form.staffId,
          password := if form.password.Some? && form.password.value != "" then hash(form.password.value) else old_.password)
  }

  /**
   * `edit_user` (a POST): refuse the admin type, 404 on a missing key, refuse
   * when the duplicate check fires, otherwise update the row. Storing a missing
   * username or email, or a staff id another row of the table has, makes the
   * commit fail and nothing changes.
   */
  function EditStep(db: Db, userType: string, userId: nat, form: EditForm, hash: string -> string): Step {
    match NonAdminRole(userType)
    case None => Step(db, InvalidUserType)
    case Some(r) =>
      var t := db.Table(r);
      match IndexOfId(t, userId)
      case None => Step(db, UserNotFound)
      case Some(i) =>
        if EditConflict(db, userId, form.username, form.email) then Step(db, UsernameOrEmailExists)
        else if form.username.None? || form.email.None? then Step(db, IntegrityError)
        else
          var u := EditedRow(r, t[i], form.username.value, form.email.value, form, hash);
          if StaffIdInUse(t, u.staffId, i) then Step(db, IntegrityError)
          else Step(db.WithTable(r, t[i := u]), UserUpdated(u.username))
  }

  // ---------------------------------------------------------------------------
  // The registry itself

  /** The four principal tables, updated in place by the routes. */
  class Registry {
    var admins: seq<Principal>
    var customers: seq<Principal>
    var insurers: seq<Principal>
    var regulators: seq<Principal>

    function State(): Db
      reads this
    {
      Db(admins, customers, insurers, regulators)
    }

    constructor (db: Db)
      ensures State() == db
    {
      admins, customers, insurers, regulators := db.admins, db.customers, db.insurers, db.regulators;
    }

    /** `db.session.add(row)` followed by a successful commit. */
    method AddRow(r: Role, row: Principal)
      modifies this
      ensures State() == old(State()).WithTable(r, old(State()).Table(r) + [row])
    {
      match r
      case Admin => admins := admins + [row];
      case Customer => customers := customers + [row];
      case Insurer => insurers := insurers + [row];
      case Regulator => regulators := regulators + [row];
    }

    /** Overwrite the row at position `i` of the table of `r` (a field update and a commit). */
    method SetRow(r: Role, i: nat, row: Principal)
      requires i < |State().Table(r)|
      modifies this
      ensures State() == old(State()).WithTable(r, old(State()).Table(r)[i := row])
    {
      match r
      case Admin => admins := admins[i := row];
      case Customer => customers := customers[i := row];
      case Insurer => insurers := insurers[i := row];
      case Regulator => regulators := regulators[i := row];
    }

    /** The loop of signup over the four tables, stopping at the first that has the username or email. */
    method UsernameOrEmailTaken(username: string, email: string) returns (found: bool)
      ensures found == TakenAnywhere(State(), username, email)
    {
      found := false;
      var k := 0;
      while k < |TableOrder| && !found
        invariant 0 <= k <= |TableOrder|
        invariant found == exists j :: 0 <= j < k && Taken(State().Table(TableOrder[j]), username, email)
      {
        found := Taken(State().Table(TableOrder[k]), username, email);
        k := k + 1;
      }
      if found {
        var j :| 0 <= j < k && Taken(State().Table(TableOrder[j]), username, email);
        assert TableOrder[j] in TableOrder;
      } else {
        forall r | r in TableOrder
          ensures !Taken(State().Table(r), username, email)
        {
          var j :| 0 <= j < |TableOrder| && TableOrder[j] == r;
        }
      }
    }

    method Signup(username: string, email: string, password: string, userType: string,
                  staffId: Option<string>, hash: string -> string) returns (out: RouteOutcome)
      modifies this
      ensures Step(State(), out) == SignupStep(old(State()), username, email, password, userType, staffId, hash)
    {
      var role := NonAdminRole(userType);
      if role.None? {
        return InvalidUserType;
      }
      var staff := if role.value == Insurer || role.value == Regulator then staffId else None;
      var hashed := hash(password);
      var taken := UsernameOrEmailTaken(username, email);
      if taken {
        return UsernameOrEmailExists;
      }
      var t := State().Table(role.value);
      var user := NewPrincipal(role.value, NextId(t), username, email, hashed, staff);
      if StaffIdInUse(t, user.staffId, -1) {
        return IntegrityError;
      }
      AddRow(role.value, user);
      out := SignedUp(role.value, user);
    }

    method Login(rawEmail: string, password: string, check: (string, string) -> bool)
      returns (out: LoginOutcome)
      ensures out == LoginOutcomeOf(State(), rawEmail, password, check)
    {
      var email := PyStr.Strip(rawEmail);
      var k := 0;
      while k < |TableOrder|
        invariant 0 <= k <= |TableOrder|
        invariant ProbeTables(State(), TableOrder[k..], email, password, check)
               == LoginOutcomeOf(State(), rawEmail, password, check)
      {
        var role := TableOrder[k];
        assert TableOrder[k..][1..] == TableOrder[k + 1..];
        var user := Probe(State().Table(role), email, password, check);
        if user.Some? {
          if !user.value.isActive {
            return AccountDisabled;
          }
          return LoggedIn(role, user.value, GetId(role, user.value), Dashboard(role));
        }
        k := k + 1;
      }
      out := InvalidCredentials;
    }

    method ToggleUserStatus(userType: string, userId: nat) returns (out: RouteOutcome)
      modifies this
      ensures Step(State(), out) == ToggleStep(old(State()), userType, userId)
    {
      var role := NonAdminRole(userType);
      if role.None? {
        return InvalidUserType;
      }
      var r := role.value;
      var k := IndexOfId(State().Table(r), userId);
      if k.None? {
        return UserNotFound;
      }
      var i := k.value;
      var user := State().Table(r)[i];
      user := user.(isActive := !user.isActive);
      SetRow(r, i, user);
      out := StatusToggled(user.username, user.isActive);
    }

    method EditUser(userType: string, userId: nat, form: EditForm, hash: string -> string)
      returns (out: RouteOutcome)
      modifies this
      ensures Step(State(), out) == EditStep(old(State()), userType, userId, form, hash)
    {
      var role := NonAdminRole(userType);
      if role.None? {
        return InvalidUserType;
      }
      var r := role.value;
      var t := State().Table(r);
      var k := IndexOfId(t, userId);
      if k.None? {
        return UserNotFound;
      }
      var i := k.value;
      if EditConflict(State(), userId, form.username, form.email) {
        return UsernameOrEmailExists;
      }
      if form.username.None? || form.email.None? {
        return IntegrityError;
      }
      var user := EditedRow(r, t[i], form.username.value, form.email.value, form, hash);
      if StaffIdInUse(t, user.staffId, i) {
        return IntegrityError;
      }
      SetRow(r, i, user);
      out := UserUpdated(user.username);
    }
  }
}
