/**
 * The four principal tables of the portal (Admin, Customer, Insurer,
 * Regulator), their records, the session identifier each record reports,
 * and the column constraints the tables declare.
 */
module Models {
  import opened Wrappers
  import PyStr

  /** Which of the four tables a principal lives in. */
  datatype Role = Admin | Customer | Insurer | Regulator

  /** The order in which login and the signup duplicate check visit the tables. */
  const TableOrder: seq<Role> := [Admin, Customer, Insurer, Regulator]

  /** The position of a table in that order. */
  function Rank(r: Role): (k: nat)
    ensures k < |TableOrder| && TableOrder[k] == r
  {
    match r
    case Admin => 0
    case Customer => 1
    case Insurer => 2
    case Regulator => 3
  }

  /** The tag `get_id` puts in front of the primary key. */
  function Prefix(r: Role): string {
    match r
    case Admin => "admin"
    case Customer => "customer"
    case Insurer => "insurer"
    case Regulator => "regulator"
  }

  /** The name of the record class, which the role guards compare against. */
  function ClassName(r: Role): string {
    match r
    case Admin => "Admin"
    case Customer => "Customer"
    case Insurer => "Insurer"
    case Regulator => "Regulator"
  }

  /**
   * One row of a principal table. `staffId` exists on Admin, Insurer and
   * Regulator; a Customer row always has None there (the Customer table has no
   * such column). `password` holds the stored hash.
   */
  datatype Principal = Principal(
    id: nat,
    username: string,
    email: string,
    password: string,
    staffId: Option<string>,
    isActive: bool)

  /** A freshly created row: `is_active` takes its column default, True. */
  function NewPrincipal(r: Role, id: nat, username: string, email: string, password: string,
                        staffId: Option<string>): (p: Principal)
    ensures p.isActive
    ensures p.id == id && p.username == username && p.email == email && p.password == password
    ensures p.staffId == (if r == Customer then None else staffId)
  {
    Principal(id, username, email, password, if r == Customer then None else staffId, true)
  }

  /** The prefixes are pairwise distinct and free of `_`. */
  lemma PrefixesDistinct(r1: Role, r2: Role)
    ensures '_' !in Prefix(r1)
    ensures Prefix(r1) == Prefix(r2) <==> r1 == r2
  {
  }

  /**
   * `get_id`: the role tag, an underscore, then the decimal primary key
   * (`"insurer_42"`). Splitting it at its first underscore gives back the tag
   * and the digits of the key.
   */
  function GetId(r: Role, p: Principal): (s: string)
    ensures PyStr.SplitOnce(s, '_') == Some((Prefix(r), PyStr.NatToDecimal(p.id)))
  {
    PrefixesDistinct(r, r);
    PyStr.SplitOnceJoined(Prefix(r), '_', PyStr.NatToDecimal(p.id));
    Prefix(r) + "_" + PyStr.NatToDecimal(p.id)
  }

  /** Session identifiers never collide: equal only for the same table and the same key. */
  lemma GetIdInjective(r1: Role, p1: Principal, r2: Role, p2: Principal)
    ensures GetId(r1, p1) == GetId(r2, p2) <==> r1 == r2 && p1.id == p2.id
  {
    if GetId(r1, p1) == GetId(r2, p2) {
      PrefixesDistinct(r1, r2);
      PyStr.DecimalInjective(p1.id, p2.id);
    }
  }

  // ---------------------------------------------------------------------------
  // Column constraints of one table

  predicate UniqueIds(t: seq<Principal>) {
    forall i, j :: 0 <= i < j < |t| ==> t[i].id != t[j].id
  }

  predicate UniqueUsernames(t: seq<Principal>) {
    forall i, j :: 0 <= i < j < |t| ==> t[i].username != t[j].username
  }

  predicate UniqueEmails(t: seq<Principal>) {
    forall i, j :: 0 <= i < j < |t| ==> t[i].email != t[j].email
  }

  /** `staff_id` is unique but nullable: only set values must differ. */
  predicate UniqueStaffIds(t: seq<Principal>) {
    forall i, j :: 0 <= i < j < |t| && t[i].staffId.Some? ==> t[i].staffId != t[j].staffId
  }

  /**
   * What the declarations promise for a table: a primary key, unique username
   * and email, unique nullable staff id, and no staff id at all on Customer.
   */
  predicate TableValid(r: Role, t: seq<Principal>) {
    && UniqueIds(t)
    && UniqueUsernames(t)
    && UniqueEmails(t)
    && UniqueStaffIds(t)
    && (r == Customer ==> forall i :: 0 <= i < |t| ==> t[i].staffId.None?)
  }
}
