/**
 * What the registry routes promise, proved from their specifications in
 * module App: the session identifier round trip, what signup checks and
 * keeps, how login chooses, and what the admin user operations change.
 */
module AppProofs {
  import opened Wrappers
  import opened Models
  import opened App
  import PyStr
  import Decorators

  // ---------------------------------------------------------------------------
  // Lookups

  /** In a table with unique keys, the row with a key is the row `query.get` finds. */
  lemma IndexOfIdFindsRow(t: seq<Principal>, u: Principal)
    requires UniqueIds(t) && u in t
    ensures IndexOfId(t, u.id).Some? && t[IndexOfId(t, u.id).value] == u
  {
    var j :| 0 <= j < |t| && t[j] == u;
  }

  /** Overwriting the row `query.get` found with one of the same key leaves the lookup where it was. */
  lemma IndexOfIdAfterUpdate(t: seq<Principal>, id: int, i: nat, u: Principal)
    requires IndexOfId(t, id) == Some(i) && u.id == id
    ensures IndexOfId(t[i := u], id) == Some(i)
  {
    var k := IndexOfId(t[i := u], id);
    assert t[i := u][i].id == id;
  }

  // ---------------------------------------------------------------------------
  // Session identifiers and load_user

  /** Round trip: the identifier `get_id` reports for a row resolves back to that row. */
  lemma LoadUserRoundTrip(db: Db, r: Role, u: Principal)
    requires UniqueIds(db.Table(r)) && u in db.Table(r)
    ensures LoadUser(db, GetId(r, u)) == LoadedUser(r, u)
  {
    var s := GetId(r, u);
    assert PyStr.SplitOnce(s, '_') == Some((Prefix(r), PyStr.NatToDecimal(u.id)));
    var found := RoleOfPrefix(Prefix(r));
    PrefixesDistinct(r, found.value);
    assert found == Some(r);
    PyStr.ParseIntOfDecimal(u.id);
    IndexOfIdFindsRow(db.Table(r), u);
  }

  /**
   * Only the first underscore splits: with a known tag, everything after it is
   * parsed as the key (so `int()` sees any further underscores), and the row
   * found is the one of that table with that key.
   */
  lemma LoadUserKnownTag(db: Db, r: Role, rest: string)
    ensures var out := LoadUser(db, Prefix(r) + "_" + rest);
      match PyStr.ParseInt(rest)
      case None => out == ValueErrorRaised
      case Some(key) =>
        && (out.LoadedUser? <==> exists i :: 0 <= i < |db.Table(r)| && db.Table(r)[i].id == key)
        && (out.LoadedUser? ==> out.role == r && out.user in db.Table(r) && out.user.id == key)
        && (!out.LoadedUser? ==> out == NoUser)
  {
    PrefixesDistinct(r, r);
    PyStr.SplitOnceJoined(Prefix(r), '_', rest);
    var found := RoleOfPrefix(Prefix(r));
    PrefixesDistinct(r, found.value);
  }

  /** A tag that names none of the four tables resolves to no user. */
  lemma LoadUserUnknownTag(db: Db, tag: string, rest: string)
    requires '_' !in tag
    requires forall r :: Prefix(r) != tag
    ensures LoadUser(db, tag + "_" + rest) == NoUser
  {
    PyStr.SplitOnceJoined(tag, '_', rest);
  }

  // ---------------------------------------------------------------------------
  // signup

  /** Admin self-signup, and every other user type outside the three, is refused and adds nothing. */
  lemma SignupRefusesOtherTypes(db: Db, username: string, email: string, password: string,
                                userType: string, staffId: Option<string>, hash: string -> string)
    requires userType !in {"customer", "insurer", "regulator"}
    ensures SignupStep(db, username, email, password, userType, staffId, hash) == Step(db, InvalidUserType)
  {
  }

  /** A username or email present in any of the four tables is refused, and nothing is added. */
  lemma SignupRefusesTaken(db: Db, username: string, email: string, password: string, userType: string,
                           staffId: Option<string>, hash: string -> string, r: Role, i: nat)
    requires userType in {"customer", "insurer", "regulator"}
    requires i < |db.Table(r)|
    requires db.Table(r)[i].username == username || db.Table(r)[i].email == email
    ensures SignupStep(db, username, email, password, userType, staffId, hash) == Step(db, UsernameOrEmailExists)
  {
    assert r in TableOrder;
    assert Taken(db.Table(r), username, email);
  }

  /**
   * A successful signup adds exactly one row, to the table the user type
   * names, carrying the submitted username and email, the hashed password, a
   * fresh key, `is_active` set, and a staff id only for insurers and
   * regulators; every other table is as it was.
   */
  lemma SignupAddsOneRow(db: Db, username: string, email: string, password: string, userType: string,
                         staffId: Option<string>, hash: string -> string)
    requires SignupStep(db, username, email, password, userType, staffId, hash).outcome.SignedUp?
    ensures var s := SignupStep(db, username, email, password, userType, staffId, hash);
      var role := s.outcome.role;
      var u := s.outcome.user;
      && NonAdminRole(userType) == Some(role)
      && s.db.Table(role) == db.Table(role) + [u]
      && (forall r :: r != role ==> s.db.Table(r) == db.Table(r))
      && u.username == username && u.email == email && u.password == hash(password) && u.isActive
      && (forall i :: 0 <= i < |db.Table(role)| ==> db.Table(role)[i].id != u.id)
      && u.staffId == (if role == Customer then None else staffId)
  {
  }

  /** Signup succeeds exactly when the type is allowed, the name and email are new, and the staff id is free. */
  lemma SignupSucceedsIff(db: Db, username: string, email: string, password: string, userType: string,
                          staffId: Option<string>, hash: string -> string)
    ensures SignupStep(db, username, email, password, userType, staffId, hash).outcome.SignedUp? <==>
      && userType in {"customer", "insurer", "regulator"}
      && (forall r, i :: 0 <= i < |db.Table(r)| ==> db.Table(r)[i].username != username && db.Table(r)[i].email != email)
      && !(userType != "customer" && StaffIdInUse(db.Table(NonAdminRole(userType).value), staffId, -1))
  {
    if userType in {"customer", "insurer", "regulator"} {
      if !TakenAnywhere(db, username, email) {
        forall r, i | 0 <= i < |db.Table(r)|
          ensures db.Table(r)[i].username != username && db.Table(r)[i].email != email
        {
          assert r in TableOrder;
        }
      }
    }
  }

  /**
   * Signup keeps the column constraints of every table and the cross-table
   * uniqueness of usernames and emails.
   */
  lemma SignupPreservesInvariants(db: Db, username: string, email: string, password: string,
                                  userType: string, staffId: Option<string>, hash: string -> string)
    requires TablesValid(db) && GloballyUnique(db)
    ensures var d := SignupStep(db, username, email, password, userType, staffId, hash).db;
      TablesValid(d) && GloballyUnique(d)
  {
    var s := SignupStep(db, username, email, password, userType, staffId, hash);
    if s.outcome.SignedUp? {
      var role := s.outcome.role;
      var u := s.outcome.user;
      var t := db.Table(role);
      var d := s.db;
      SignupSucceedsIff(db, username, email, password, userType, staffId, hash);
      SignupPreservesTablesValid(db, username, email, password, userType, staffId, hash);
      assert d.Table(role) == t + [u];
      forall r1, i, r2, j | 0 <= i < |d.Table(r1)| && 0 <= j < |d.Table(r2)| && (r1 != r2 || i != j)
        ensures d.Table(r1)[i].username != d.Table(r2)[j].username
        ensures d.Table(r1)[i].email != d.Table(r2)[j].email
      {
        var new1 := r1 == role && i == |t|;
        var new2 := r2 == role && j == |t|;
        assert d.Table(r1)[i] == if new1 then u else db.Table(r1)[i];
        assert d.Table(r2)[j] == if new2 then u else db.Table(r2)[j];
      }
    }
  }

  /** The session identifier of the new row resolves to it at once. */
  lemma SignupThenLoadUser(db: Db, username: string, email: string, password: string,
                           userType: string, staffId: Option<string>, hash: string -> string)
    requires TablesValid(db)
    requires SignupStep(db, username, email, password, userType, staffId, hash).outcome.SignedUp?
    ensures var s := SignupStep(db, username, email, password, userType, staffId, hash);
      LoadUser(s.db, GetId(s.outcome.role, s.outcome.user)) == LoadedUser(s.outcome.role, s.outcome.user)
  {
    var s := SignupStep(db, username, email, password, userType, staffId, hash);
    SignupPreservesTablesValid(db, username, email, password, userType, staffId, hash);
    var role := s.outcome.role;
    assert TableValid(role, s.db.Table(role));
    assert s.outcome.user == s.db.Table(role)[|s.db.Table(role)| - 1];
    LoadUserRoundTrip(s.db, role, s.outcome.user);
  }

  lemma SignupPreservesTablesValid(db: Db, username: string, email: string, password: string,
                                   userType: string, staffId: Option<string>, hash: string -> string)
    requires TablesValid(db)
    ensures TablesValid(SignupStep(db, username, email, password, userType, staffId, hash).db)
  {
    var s := SignupStep(db, username, email, password, userType, staffId, hash);
    if s.outcome.SignedUp? {
      var role := s.outcome.role;
      var u := s.outcome.user;
      var t := db.Table(role);
      SignupSucceedsIff(db, username, email, password, userType, staffId, hash);
      forall r ensures TableValid(r, s.db.Table(r)) {
        if r == role {
          assert TableValid(role, t);
          var t' := t + [u];
          assert s.db.Table(r) == t';
          forall i, j | 0 <= i < j < |t'|
            ensures t'[i].id != t'[j].id && t'[i].username != t'[j].username && t'[i].email != t'[j].email
            ensures t'[i].staffId.Some? ==> t'[i].staffId != t'[j].staffId
          {
            if j == |t| {
              assert t'[i] == t[i];
            }
          }
        } else {
          assert TableValid(r, db.Table(r));
        }
      }
    }
  }

  // ---------------------------------------------------------------------------
  // login

  lemma {:induction false} ProbeTablesSkips(db: Db, roles: seq<Role>, k: nat, email: string, password: string,
                                           check: (string, string) -> bool)
    requires k <= |roles|
    requires forall j :: 0 <= j < k ==> Probe(db.Table(roles[j]), email, password, check).None?
    ensures ProbeTables(db, roles, email, password, check) == ProbeTables(db, roles[k..], email, password, check)
  {
    if k > 0 {
      assert Probe(db.Table(roles[0]), email, password, check).None?;
      ProbeTablesSkips(db, roles[1..], k - 1, email, password, check);
      assert roles[1..][k - 1..] == roles[k..];
    }
  }

  /**
   * Login is decided by the first table, in the order Admin, Customer,
   * Insurer, Regulator, whose first row with the stripped email has a matching
   * password: an active row is signed in (session id from `get_id`, redirect
   * to its dashboard), an inactive one gets the disabled error. A wrong
   * password in an earlier table does not stop the search.
   */
  lemma LoginFirstAcceptingTableDecides(db: Db, rawEmail: string, password: string,
                                        check: (string, string) -> bool, k: nat, u: Principal)
    requires k < |TableOrder|
    requires Probe(db.Table(TableOrder[k]), PyStr.Strip(rawEmail), password, check) == Some(u)
    requires forall j :: 0 <= j < k ==> Probe(db.Table(TableOrder[j]), PyStr.Strip(rawEmail), password, check).None?
    ensures LoginOutcomeOf(db, rawEmail, password, check) ==
      if u.isActive then LoggedIn(TableOrder[k], u, GetId(TableOrder[k], u), Dashboard(TableOrder[k]))
      else AccountDisabled
  {
    ProbeTablesSkips(db, TableOrder, k, PyStr.Strip(rawEmail), password, check);
  }

  /** The outcome of probing one table, given what the remaining tables would decide. */
  function Decide(r: Role, found: Option<Principal>, otherwise: LoginOutcome): LoginOutcome {
    match found
    case None => otherwise
    case Some(u) => if !u.isActive then AccountDisabled else LoggedIn(r, u, GetId(r, u), Dashboard(r))
  }

  lemma ProbeTablesStep(db: Db, roles: seq<Role>, email: string, password: string,
                        check: (string, string) -> bool)
    requires roles != []
    ensures ProbeTables(db, roles, email, password, check) ==
      Decide(roles[0], Probe(db.Table(roles[0]), email, password, check), ProbeTables(db, roles[1..], email, password, check))
  {
  }

  /** Login written out table by table, in its fixed order. */
  lemma LoginUnrolled(db: Db, rawEmail: string, password: string, check: (string, string) -> bool)
    ensures var e := PyStr.Strip(rawEmail);
      LoginOutcomeOf(db, rawEmail, password, check) ==
        Decide(Admin, Probe(db.Table(Admin), e, password, check),
        Decide(Customer, Probe(db.Table(Customer), e, password, check),
        Decide(Insurer, Probe(db.Table(Insurer), e, password, check),
        Decide(Regulator, Probe(db.Table(Regulator), e, password, check),
        InvalidCredentials))))
  {
    var e := PyStr.Strip(rawEmail);
    ProbeTablesStep(db, [Admin, Customer, Insurer, Regulator], e, password, check);
    ProbeTablesStep(db, [Customer, Insurer, Regulator], e, password, check);
    ProbeTablesStep(db, [Insurer, Regulator], e, password, check);
    ProbeTablesStep(db, [Regulator], e, password, check);
    assert [Admin, Customer, Insurer, Regulator][1..] == [Customer, Insurer, Regulator];
    assert [Customer, Insurer, Regulator][1..] == [Insurer, Regulator];
    assert [Insurer, Regulator][1..] == [Regulator];
    assert [Regulator][1..] == [];
  }

  lemma DecideInvalid(r: Role, found: Option<Principal>, otherwise: LoginOutcome)
    ensures Decide(r, found, otherwise) == InvalidCredentials <==> found.None? && otherwise == InvalidCredentials
  {
  }

  /** A probe accepts exactly when the first row with the email has a password that checks. */
  lemma ProbeFirstRow(t: seq<Principal>, email: string, password: string, check: (string, string) -> bool)
    ensures Probe(t, email, password, check).Some? <==>
      exists i :: 0 <= i < |t| && t[i].email == email && check(t[i].password, password) &&
                  (forall j :: 0 <= j < i ==> t[j].email != email)
  {
    if k :| 0 <= k < |t| && t[k].email == email && check(t[k].password, password) &&
            (forall j :: 0 <= j < k ==> t[j].email != email) {
      assert IndexOfEmail(t, email) == Some(k);
    }
  }

  /** With unique emails, a probe accepts exactly when some row has the email and a password that checks. */
  lemma ProbeComplete(t: seq<Principal>, email: string, password: string, check: (string, string) -> bool)
    requires UniqueEmails(t)
    ensures Probe(t, email, password, check).Some? <==>
      exists i :: 0 <= i < |t| && t[i].email == email && check(t[i].password, password)
  {
    ProbeFirstRow(t, email, password, check);
    if exists i :: 0 <= i < |t| && t[i].email == email && check(t[i].password, password) {
      var i :| 0 <= i < |t| && t[i].email == email && check(t[i].password, password);
      assert forall j :: 0 <= j < i ==> t[j].email != t[i].email;
    }
  }

  /** Login fails with "Invalid credentials" exactly when no table accepts the email and password. */
  lemma LoginInvalidIff(db: Db, rawEmail: string, password: string, check: (string, string) -> bool)
    ensures LoginOutcomeOf(db, rawEmail, password, check) == InvalidCredentials <==>
      forall r :: Probe(db.Table(r), PyStr.Strip(rawEmail), password, check).None?
  {
    LoginUnrolled(db, rawEmail, password, check);
    var e := PyStr.Strip(rawEmail);
    var p4 := Decide(Regulator, Probe(db.Table(Regulator), e, password, check), InvalidCredentials);
    var p3 := Decide(Insurer, Probe(db.Table(Insurer), e, password, check), p4);
    var p2 := Decide(Customer, Probe(db.Table(Customer), e, password, check), p3);
    DecideInvalid(Regulator, Probe(db.Table(Regulator), e, password, check), InvalidCredentials);
    DecideInvalid(Insurer, Probe(db.Table(Insurer), e, password, check), p4);
    DecideInvalid(Customer, Probe(db.Table(Customer), e, password, check), p3);
    DecideInvalid(Admin, Probe(db.Table(Admin), e, password, check), p2);
    if LoginOutcomeOf(db, rawEmail, password, check) == InvalidCredentials {
      forall r ensures Probe(db.Table(r), e, password, check).None? {
        match r
        case Admin =>
        case Customer =>
        case Insurer =>
        case Regulator =>
      }
    }
  }

  /**
   * With valid tables: "Invalid credentials" exactly when no row of any table
   * has the stripped email together with a password that checks.
   */
  lemma LoginInvalidIffRows(db: Db, rawEmail: string, password: string, check: (string, string) -> bool)
    requires TablesValid(db)
    ensures LoginOutcomeOf(db, rawEmail, password, check) == InvalidCredentials <==>
      forall r, i :: 0 <= i < |db.Table(r)| && db.Table(r)[i].email == PyStr.Strip(rawEmail) ==>
        !check(db.Table(r)[i].password, password)
  {
    var e := PyStr.Strip(rawEmail);
    LoginInvalidIff(db, rawEmail, password, check);
    forall r ensures Probe(db.Table(r), e, password, check).Some? <==>
      exists i :: 0 <= i < |db.Table(r)| && db.Table(r)[i].email == e && check(db.Table(r)[i].password, password)
    {
      assert TableValid(r, db.Table(r));
      ProbeComplete(db.Table(r), e, password, check);
    }
  }

  /**
   * What a successful login guarantees: the row belongs to the chosen table,
   * has the stripped email, a matching password and `is_active` set; no
   * earlier table accepted; the session id is the row's `get_id`.
   */
  lemma LoginSuccessMeans(db: Db, rawEmail: string, password: string, check: (string, string) -> bool)
    requires LoginOutcomeOf(db, rawEmail, password, check).LoggedIn?
    ensures var out := LoginOutcomeOf(db, rawEmail, password, check);
      && out.user in db.Table(out.role)
      && out.user.email == PyStr.Strip(rawEmail)
      && check(out.user.password, password)
      && out.user.isActive
      && out.sessionId == GetId(out.role, out.user)
      && out.redirectTo == Dashboard(out.role)
      && forall r :: Rank(r) < Rank(out.role) ==> Probe(db.Table(r), PyStr.Strip(rawEmail), password, check).None?
  {
    LoginSuccessRow(db, rawEmail, password, check);
    LoginSuccessEarlierFail(db, rawEmail, password, check);
  }

  /** The row half of `LoginSuccessMeans`: the row, its email, password, status, session id and redirect. */
  lemma LoginSuccessRow(db: Db, rawEmail: string, password: string, check: (string, string) -> bool)
    requires LoginOutcomeOf(db, rawEmail, password, check).LoggedIn?
    ensures var out := LoginOutcomeOf(db, rawEmail, password, check);
      && out.user in db.Table(out.role)
      && out.user.email == PyStr.Strip(rawEmail)
      && check(out.user.password, password)
      && out.user.isActive
      && out.sessionId == GetId(out.role, out.user)
      && out.redirectTo == Dashboard(out.role)
  {
    var e := PyStr.Strip(rawEmail);
    var pa, pc := Probe(db.Table(Admin), e, password, check), Probe(db.Table(Customer), e, password, check);
    var pi, pr := Probe(db.Table(Insurer), e, password, check), Probe(db.Table(Regulator), e, password, check);
    var p4 := Decide(Regulator, pr, InvalidCredentials);
    var p3 := Decide(Insurer, pi, p4);
    var p2 := Decide(Customer, pc, p3);
    var out := LoginOutcomeOf(db, rawEmail, password, check);
    LoginUnrolled(db, rawEmail, password, check);
    assert out == Decide(Admin, pa, p2);
    DecideLoggedIn(Admin, pa, p2);
    if pa.Some? {
      assert out.role == Admin;
      assert out.user == pa.value;
    } else {
      DecideLoggedIn(Customer, pc, p3);
      if pc.Some? {
        assert out.role == Customer;
        assert out.user == pc.value;
      } else {
        DecideLoggedIn(Insurer, pi, p4);
        if pi.Some? {
          assert out.role == Insurer;
          assert out.user == pi.value;
        } else {
          DecideLoggedIn(Regulator, pr, InvalidCredentials);
          assert out.role == Regulator;
          assert out.user == pr.value;
        }
      }
    }
  }

  /** The order half of `LoginSuccessMeans`: every table before the chosen one refused. */
  lemma LoginSuccessEarlierFail(db: Db, rawEmail: string, password: string, check: (string, string) -> bool)
    requires LoginOutcomeOf(db, rawEmail, password, check).LoggedIn?
    ensures var out := LoginOutcomeOf(db, rawEmail, password, check);
      forall r :: Rank(r) < Rank(out.role) ==> Probe(db.Table(r), PyStr.Strip(rawEmail), password, check).None?
  {
    var e := PyStr.Strip(rawEmail);
    var pa, pc := Probe(db.Table(Admin), e, password, check), Probe(db.Table(Customer), e, password, check);
    var pi, pr := Probe(db.Table(Insurer), e, password, check), Probe(db.Table(Regulator), e, password, check);
    var p4 := Decide(Regulator, pr, InvalidCredentials);
    var p3 := Decide(Insurer, pi, p4);
    var p2 := Decide(Customer, pc, p3);
    var out := LoginOutcomeOf(db, rawEmail, password, check);
    LoginUnrolled(db, rawEmail, password, check);
    assert out == Decide(Admin, pa, p2);
    DecideLoggedIn(Admin, pa, p2);
    match out.role
    case Admin =>
      NoneBefore(db, e, password, check, Admin);
    case Customer =>
      DecideLoggedIn(Customer, pc, p3);
      NoneBefore(db, e, password, check, Customer);
    case Insurer =>
      DecideLoggedIn(Customer, pc, p3);
      DecideLoggedIn(Insurer, pi, p4);
      NoneBefore(db, e, password, check, Insurer);
    case Regulator =>
      DecideLoggedIn(Customer, pc, p3);
      DecideLoggedIn(Insurer, pi, p4);
      NoneBefore(db, e, password, check, Regulator);
  }

  /** The tables ranked before `last` whose probes are known to fail, as one quantified fact. */
  lemma NoneBefore(db: Db, email: string, password: string, check: (string, string) -> bool, last: Role)
    requires Rank(last) >= 1 ==> Probe(db.Table(Admin), email, password, check).None?
    requires Rank(last) >= 2 ==> Probe(db.Table(Customer), email, password, check).None?
    requires Rank(last) >= 3 ==> Probe(db.Table(Insurer), email, password, check).None?
    ensures forall r :: Rank(r) < Rank(last) ==> Probe(db.Table(r), email, password, check).None?
  {
    forall r | Rank(r) < Rank(last) ensures Probe(db.Table(r), email, password, check).None? {
      match r
      case Admin =>
      case Customer =>
      case Insurer =>
      case Regulator =>
    }
  }

  /** A probe step that ends in a login: either its own table accepted an active row, or it passed on what followed. */
  lemma DecideLoggedIn(r: Role, found: Option<Principal>, otherwise: LoginOutcome)
    requires Decide(r, found, otherwise).LoggedIn?
    ensures found.Some? ==> found.value.isActive
    ensures found.Some? ==> Decide(r, found, otherwise) == LoggedIn(r, found.value, GetId(r, found.value), Dashboard(r))
    ensures found.None? ==> Decide(r, found, otherwise) == otherwise
  {
  }

  /** A probe of a table with no row for the email finds nothing. */
  lemma ProbeNoEmail(t: seq<Principal>, email: string, password: string, check: (string, string) -> bool)
    requires forall i :: 0 <= i < |t| ==> t[i].email != email
    ensures Probe(t, email, password, check).None?
  {
  }

  /** A row appended to a table with no other row for its email is the one a probe finds. */
  lemma ProbeAppended(t: seq<Principal>, u: Principal, password: string, check: (string, string) -> bool)
    requires forall i :: 0 <= i < |t| ==> t[i].email != u.email
    requires check(u.password, password)
    ensures Probe(t + [u], u.email, password, check) == Some(u)
  {
    assert (t + [u])[|t|] == u;
  }

  /** When exactly one table accepts, that table decides the login, whatever its place in the order. */
  lemma OnlyAcceptingTableDecides(db: Db, rawEmail: string, password: string,
                                  check: (string, string) -> bool, r: Role, u: Principal)
    requires Probe(db.Table(r), PyStr.Strip(rawEmail), password, check) == Some(u)
    requires forall r2 :: r2 != r ==> Probe(db.Table(r2), PyStr.Strip(rawEmail), password, check).None?
    ensures LoginOutcomeOf(db, rawEmail, password, check) ==
      if u.isActive then LoggedIn(r, u, GetId(r, u), Dashboard(r)) else AccountDisabled
  {
    var e := PyStr.Strip(rawEmail);
    LoginUnrolled(db, rawEmail, password, check);
    match r
    case Admin =>
    case Customer =>
      assert Probe(db.Table(Admin), e, password, check).None?;
    case Insurer =>
      assert Probe(db.Table(Admin), e, password, check).None?;
      assert Probe(db.Table(Customer), e, password, check).None?;
    case Regulator =>
      assert Probe(db.Table(Admin), e, password, check).None?;
      assert Probe(db.Table(Customer), e, password, check).None?;
      assert Probe(db.Table(Insurer), e, password, check).None?;
  }

  /**
   * A fresh signup can log in: with a password check that accepts the hash of
   * the password it was made from, logging in with the signup's email (up to
   * surrounding whitespace) and password reaches the new row's dashboard.
   */
  lemma SignupThenLogin(db: Db, username: string, email: string, password: string, userType: string,
                        staffId: Option<string>, hash: string -> string,
                        check: (string, string) -> bool, rawEmail: string)
    requires check(hash(password), password)
    requires PyStr.Strip(rawEmail) == email
    requires SignupStep(db, username, email, password, userType, staffId, hash).outcome.SignedUp?
    ensures var s := SignupStep(db, username, email, password, userType, staffId, hash);
      var out := LoginOutcomeOf(s.db, rawEmail, password, check);
      && out.LoggedIn?
      && out.role == s.outcome.role
      && out.user == s.outcome.user
      && out.redirectTo == Dashboard(out.role)
  {
    var s := SignupStep(db, username, email, password, userType, staffId, hash);
    var role := NonAdminRole(userType).value;
    var user := s.outcome.user;
    assert s.db == db.WithTable(role, db.Table(role) + [user]);
    forall r ensures forall i :: 0 <= i < |db.Table(r)| ==> db.Table(r)[i].email != email {
      assert TableOrder[Rank(r)] == r;
      assert !Taken(db.Table(r), username, email);
    }
    ProbeAppended(db.Table(role), user, password, check);
    forall r | r != role ensures Probe(s.db.Table(r), email, password, check).None? {
      ProbeNoEmail(s.db.Table(r), email, password, check);
    }
    OnlyAcceptingTableDecides(s.db, rawEmail, password, check, role, user);
  }

  /** After a successful login, the session id resolves back to the signed-in row. */
  lemma LoginThenLoadUser(db: Db, rawEmail: string, password: string, check: (string, string) -> bool)
    requires TablesValid(db)
    requires LoginOutcomeOf(db, rawEmail, password, check).LoggedIn?
    ensures var out := LoginOutcomeOf(db, rawEmail, password, check);
      LoadUser(db, out.sessionId) == LoadedUser(out.role, out.user)
  {
    var out := LoginOutcomeOf(db, rawEmail, password, check);
    LoginSuccessMeans(db, rawEmail, password, check);
    assert TableValid(out.role, db.Table(out.role));
    LoadUserRoundTrip(db, out.role, out.user);
  }

  /**
   * The page a successful login redirects to is the dashboard of the row's
   * role, that page's guard is the role's own, and the session passes it and
   * no other role's guard.
   */
  lemma LoginLandsOnOwnGuardedDashboard<T>(db: Db, rawEmail: string, password: string,
                                            check: (string, string) -> bool, r: Role, view: T)
    requires LoginOutcomeOf(db, rawEmail, password, check).LoggedIn?
    ensures var out := LoginOutcomeOf(db, rawEmail, password, check);
      && GuardOf(out.redirectTo) == Some(out.role)
      && Decorators.RoleRequired(GuardOf(out.redirectTo).value, Decorators.SessionVisitor(out.role), view).ViewCalled?
      && (Decorators.RoleRequired(r, Decorators.SessionVisitor(out.role), view).ViewCalled? <==> r == out.role)
  {
    var out := LoginOutcomeOf(db, rawEmail, password, check);
    LoginSuccessMeans(db, rawEmail, password, check);
    assert GuardOf(Dashboard(out.role)) == Some(out.role);
    Decorators.SessionPassesOwnGuardOnly(out.role, out.role, view);
    Decorators.SessionPassesOwnGuardOnly(r, out.role, view);
  }

  /** Each role has its own dashboard. */
  lemma DashboardInjective(r1: Role, r2: Role)
    ensures Dashboard(r1) == Dashboard(r2) <==> r1 == r2
  {
  }

  // ---------------------------------------------------------------------------
  // toggle_user_status

  /** The admin type, and any type outside the three, is refused with no change. */
  lemma ToggleRefusesOtherTypes(db: Db, userType: string, userId: nat)
    requires userType !in {"customer", "insurer", "regulator"}
    ensures ToggleStep(db, userType, userId) == Step(db, InvalidUserType)
  {
  }

  /** Toggling the same user twice restores the tables exactly. */
  lemma ToggleTwiceRestores(db: Db, userType: string, userId: nat)
    ensures ToggleStep(ToggleStep(db, userType, userId).db, userType, userId).db == db
  {
    var s := ToggleStep(db, userType, userId);
    if s.outcome.StatusToggled? {
      var r := NonAdminRole(userType).value;
      var t := db.Table(r);
      var i := IndexOfId(t, userId).value;
      var u := t[i].(isActive := !t[i].isActive);
      IndexOfIdAfterUpdate(t, userId, i, u);
      assert s.db.Table(r)[i := s.db.Table(r)[i].(isActive := !s.db.Table(r)[i].isActive)] == t;
      assert s.db.WithTable(r, t) == db;
    }
  }

  /**
   * A toggle negates `is_active` of the row with the given key in the table
   * the type names, reports the new value, and changes nothing else: no other
   * row and no other field.
   */
  lemma ToggleChangesOnlyTarget(db: Db, userType: string, userId: nat)
    requires TablesValid(db)
    requires ToggleStep(db, userType, userId).outcome.StatusToggled?
    ensures var s := ToggleStep(db, userType, userId);
      var r := NonAdminRole(userType).value;
      && (forall r2 :: |s.db.Table(r2)| == |db.Table(r2)|)
      && (forall r2, j :: 0 <= j < |db.Table(r2)| ==>
            s.db.Table(r2)[j] ==
              if r2 == r && db.Table(r2)[j].id == userId
              then db.Table(r2)[j].(isActive := !db.Table(r2)[j].isActive)
              else db.Table(r2)[j])
      && exists j :: 0 <= j < |db.Table(r)| && db.Table(r)[j].id == userId &&
           s.outcome == StatusToggled(db.Table(r)[j].username, !db.Table(r)[j].isActive)
  {
    var r := NonAdminRole(userType).value;
    var t := db.Table(r);
    var i := IndexOfId(t, userId).value;
    assert TableValid(r, t);
    forall j | 0 <= j < |t| && t[j].id == userId ensures j == i {
      assert TableValid(r, t);
    }
  }

  /** Rows with the same key, username, email and staff id, position by position. */
  predicate SameIdentities(t: seq<Principal>, t': seq<Principal>) {
    && |t'| == |t|
    && forall j :: 0 <= j < |t| ==>
         t'[j].id == t[j].id && t'[j].username == t[j].username &&
         t'[j].email == t[j].email && t'[j].staffId == t[j].staffId
  }

  lemma SameIdentitiesValid(r: Role, t: seq<Principal>, t': seq<Principal>)
    requires TableValid(r, t) && SameIdentities(t, t')
    ensures TableValid(r, t')
  {
  }

  lemma SameIdentitiesGloballyUnique(db: Db, d: Db)
    requires GloballyUnique(db)
    requires forall r :: SameIdentities(db.Table(r), d.Table(r))
    ensures GloballyUnique(d)
  {
    forall r1, i, r2, j | 0 <= i < |d.Table(r1)| && 0 <= j < |d.Table(r2)| && (r1 != r2 || i != j)
      ensures d.Table(r1)[i].username != d.Table(r2)[j].username
      ensures d.Table(r1)[i].email != d.Table(r2)[j].email
    {
      assert SameIdentities(db.Table(r1), d.Table(r1)) && SameIdentities(db.Table(r2), d.Table(r2));
    }
  }

  /** A toggle keeps every row's key, username, email and staff id. */
  lemma ToggleKeepsIdentities(db: Db, userType: string, userId: nat, r: Role)
    ensures SameIdentities(db.Table(r), ToggleStep(db, userType, userId).db.Table(r))
  {
  }

  /** A toggle keeps the column constraints and the cross-table uniqueness. */
  lemma TogglePreservesInvariants(db: Db, userType: string, userId: nat)
    requires TablesValid(db) && GloballyUnique(db)
    ensures TablesValid(ToggleStep(db, userType, userId).db)
    ensures GloballyUnique(ToggleStep(db, userType, userId).db)
  {
    var d := ToggleStep(db, userType, userId).db;
    forall r ensures SameIdentities(db.Table(r), d.Table(r)) && TableValid(r, d.Table(r)) {
      ToggleKeepsIdentities(db, userType, userId, r);
      assert TableValid(r, db.Table(r));
      SameIdentitiesValid(r, db.Table(r), d.Table(r));
    }
    SameIdentitiesGloballyUnique(db, d);
  }

  // ---------------------------------------------------------------------------
  // edit_user

  /** The admin type, and any type outside the three, is refused with no change. */
  lemma EditRefusesOtherTypes(db: Db, userType: string, userId: nat, form: EditForm, hash: string -> string)
    requires userType !in {"customer", "insurer", "regulator"}
    ensures EditStep(db, userType, userId, form, hash) == Step(db, InvalidUserType)
  {
  }

  /**
   * For an existing row, edit_user refuses with "already exists" exactly when
   * a Customer, Insurer or Regulator row whose key differs from the edited key
   * has the new username or the new email; a refusal changes nothing.
   */
  lemma EditRefusesExactlyOnClash(db: Db, userType: string, userId: nat, form: EditForm, hash: string -> string)
    requires NonAdminRole(userType).Some?
    requires exists i :: 0 <= i < |db.Table(NonAdminRole(userType).value)| &&
                         db.Table(NonAdminRole(userType).value)[i].id == userId
    ensures var s := EditStep(db, userType, userId, form, hash);
      && (s.outcome == UsernameOrEmailExists <==>
            exists r, j :: r != Admin && 0 <= j < |db.Table(r)| && db.Table(r)[j].id != userId &&
              (Some(db.Table(r)[j].username) == form.username || Some(db.Table(r)[j].email) == form.email))
      && (s.outcome == UsernameOrEmailExists ==> s.db == db)
  {
    var s := EditStep(db, userType, userId, form, hash);
    if exists r, j :: r != Admin && 0 <= j < |db.Table(r)| && db.Table(r)[j].id != userId &&
              (Some(db.Table(r)[j].username) == form.username || Some(db.Table(r)[j].email) == form.email) {
      var r, j :| r != Admin && 0 <= j < |db.Table(r)| && db.Table(r)[j].id != userId &&
              (Some(db.Table(r)[j].username) == form.username || Some(db.Table(r)[j].email) == form.email);
      assert r in EditCheckedTables;
      assert ClashIn(db.Table(r), userId, form.username, form.email);
    }
    if EditConflict(db, userId, form.username, form.email) {
      var r :| r in EditCheckedTables && ClashIn(db.Table(r), userId, form.username, form.email);
      var j :| 0 <= j < |db.Table(r)| && db.Table(r)[j].id != userId &&
        (Some(db.Table(r)[j].username) == form.username || Some(db.Table(r)[j].email) == form.email);
      assert r != Admin;
    }
  }

  /**
   * A successful edit rewrites the username and email of the row with the
   * key, its staff id only for insurers and regulators, its password only when
   * a non-empty one is given, and leaves every other row and `is_active` alone.
   */
  lemma EditUpdatesOnlyTarget(db: Db, userType: string, userId: nat, form: EditForm, hash: string -> string)
    requires TablesValid(db)
    requires EditStep(db, userType, userId, form, hash).outcome.UserUpdated?
    ensures var s := EditStep(db, userType, userId, form, hash);
      var r := NonAdminRole(userType).value;
      && form.username.Some? && form.email.Some?
      && (forall r2 :: |s.db.Table(r2)| == |db.Table(r2)|)
      && (forall r2, j :: 0 <= j < |db.Table(r2)| && (r2 != r || db.Table(r2)[j].id != userId) ==>
            s.db.Table(r2)[j] == db.Table(r2)[j])
      && (forall j :: 0 <= j < |db.Table(r)| && db.Table(r)[j].id == userId ==>
            var before, after := db.Table(r)[j], s.db.Table(r)[j];
            && after.id == before.id && after.isActive == before.isActive
            && after.username == form.username.value && after.email == form.email.value
            && after.staffId == (if userType == "customer" then before.staffId else form.staffId)
            && after.password == (if form.password.Some? && form.password.value != ""
                                  then hash(form.password.value) else before.password))
  {
    var r := NonAdminRole(userType).value;
    var t := db.Table(r);
    var i := IndexOfId(t, userId).value;
    assert TableValid(r, t);
    forall j | 0 <= j < |t| && t[j].id == userId ensures j == i {
      assert TableValid(r, t);
    }
  }

  /** Replacing one row keeps a table valid when the new row keeps the key and clashes with no other row. */
  lemma ReplacedRowKeepsValid(r: Role, t: seq<Principal>, i: nat, u: Principal)
    requires TableValid(r, t) && i < |t|
    requires u.id == t[i].id
    requires forall j :: 0 <= j < |t| && j != i ==> t[j].username != u.username && t[j].email != u.email
    requires !StaffIdInUse(t, u.staffId, i)
    requires r == Customer ==> u.staffId.None?
    ensures TableValid(r, t[i := u])
  {
    var t' := t[i := u];
    forall a, b | 0 <= a < b < |t'|
      ensures t'[a].id != t'[b].id && t'[a].username != t'[b].username && t'[a].email != t'[b].email
      ensures t'[a].staffId.Some? ==> t'[a].staffId != t'[b].staffId
    {
      if a == i {
        assert t'[b] == t[b];
      } else if b == i {
        assert t'[a] == t[a];
      }
    }
  }

  /**
   * A successful edit keeps every table's column constraints: within the
   * edited table the duplicate check rules out a second row with the new
   * username or email, and a clashing staff id makes the commit fail instead.
   */
  lemma EditPreservesTablesValid(db: Db, userType: string, userId: nat, form: EditForm, hash: string -> string)
    requires TablesValid(db)
    ensures TablesValid(EditStep(db, userType, userId, form, hash).db)
  {
    var s := EditStep(db, userType, userId, form, hash);
    if s.outcome.UserUpdated? {
      var r := NonAdminRole(userType).value;
      var t := db.Table(r);
      var i := IndexOfId(t, userId).value;
      var u := EditedRow(r, t[i], form.username.value, form.email.value, form, hash);
      assert s.db == db.WithTable(r, t[i := u]);
      assert TableValid(r, t);
      assert r in EditCheckedTables;
      assert !ClashIn(t, userId, form.username, form.email);
      forall j | 0 <= j < |t| && j != i
        ensures t[j].username != u.username && t[j].email != u.email
      {
        if j < i { assert t[j].id != t[i].id; } else { assert t[i].id != t[j].id; }
      }
      ReplacedRowKeepsValid(r, t, i, u);
      forall r2 ensures TableValid(r2, s.db.Table(r2)) {
        if r2 != r { assert TableValid(r2, db.Table(r2)); }
      }
    }
  }

  /** Three tables in which every row has the key 1: an admin, a customer and an insurer. */
  function SampleDb(): Db {
    Db([Principal(1, "root", "root@x", "h", None, true)],
       [Principal(1, "carol", "carol@x", "h", None, true)],
       [Principal(1, "ivan", "ivan@x", "h", Some("I1"), true)],
       [])
  }

  lemma SampleDbGloballyUnique()
    ensures GloballyUnique(SampleDb())
  {
    var db := SampleDb();
    forall r1, i, r2, j | 0 <= i < |db.Table(r1)| && 0 <= j < |db.Table(r2)| && (r1 != r2 || i != j)
      ensures db.Table(r1)[i].username != db.Table(r2)[j].username
      ensures db.Table(r1)[i].email != db.Table(r2)[j].email
    {
    }
  }

  /** Renaming customer 1 to the username of insurer 1 passes the check, which leaves out every row with key 1. */
  lemma EditTakesInsurerUsername(hash: string -> string)
    ensures var s := EditStep(SampleDb(), "customer", 1, EditForm(Some("ivan"), Some("carol@x"), None, None), hash);
      s.outcome == UserUpdated("ivan") && !GloballyUnique(s.db)
  {
    var d := EditStep(SampleDb(), "customer", 1, EditForm(Some("ivan"), Some("carol@x"), None, None), hash).db;
    assert d.Table(Customer)[0].username == d.Table(Insurer)[0].username;
  }

  /** Renaming customer 1 to the admin's username passes the check, which does not look at the Admin table. */
  lemma EditTakesAdminUsername(hash: string -> string)
    ensures var s := EditStep(SampleDb(), "customer", 1, EditForm(Some("root"), Some("carol@x"), None, None), hash);
      s.outcome == UserUpdated("root") && !GloballyUnique(s.db)
  {
    var d := EditStep(SampleDb(), "customer", 1, EditForm(Some("root"), Some("carol@x"), None, None), hash).db;
    assert d.Table(Customer)[0].username == d.Table(Admin)[0].username;
  }

  /**
   * The duplicate check of edit_user does not protect cross-table uniqueness:
   * from tables where no username or email is shared, either edit above
   * succeeds and leaves two tables with the same username.
   */
  lemma EditCanBreakGlobalUniqueness(hash: string -> string)
    ensures GloballyUnique(SampleDb())
    ensures exists username: string ::
      var s := EditStep(SampleDb(), "customer", 1, EditForm(Some(username), Some("carol@x"), None, None), hash);
      s.outcome == UserUpdated(username) && !GloballyUnique(s.db)
  {
    SampleDbGloballyUnique();
    EditTakesInsurerUsername(hash);
    EditTakesAdminUsername(hash);
    var s := EditStep(SampleDb(), "customer", 1, EditForm(Some("ivan"), Some("carol@x"), None, None), hash);
    assert s.outcome == UserUpdated("ivan") && !GloballyUnique(s.db);
  }
}
