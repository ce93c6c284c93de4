/** Stored users, the certificate authority, and the calls of `service.User` one at a time. */
module Accounts {
  import opened Text
  import opened Decimal
  import opened Tokens

  datatype Row = Row(
    id: int, username: string, phone: string, email: string, hash: string, orgId: string, roles: seq<string>)

  datatype SignupRequest = SignupRequest(
    username: string, phone: string, email: string, password: string, orgId: string, roles: seq<string>)

  predicate Taken(rows: seq<Row>, phone: string, email: string) {
    exists r <- rows :: r.phone == phone || r.email == email
  }

  /** The phone and the email column are unique, and so are ids. */
  predicate Unique(rows: seq<Row>) {
    forall i, j :: 0 <= i < j < |rows| ==>
      rows[i].id != rows[j].id && rows[i].phone != rows[j].phone && rows[i].email != rows[j].email
  }

  predicate FreshId(rows: seq<Row>, id: int) {
    IsUint64(id) && forall r <- rows :: r.id != id
  }

  /** The unique columns, checked by the database at the insert. */
  predicate Insertable(rows: seq<Row>, row: Row) {
    FreshId(rows, row.id) && !Taken(rows, row.phone, row.email)
  }

  function RowOf(id: int, hash: string, req: SignupRequest): Row {
    Row(id, req.username, req.phone, req.email, hash, req.orgId, req.roles)
  }

  function UserPayload(r: Row): Payload {
    PayloadOf(UserInfo(r.id, r.email, r.phone, r.roles))
  }

  /** The relations a user model declares, and those every lookup of a user asks to be loaded. */
  const RELATIONS: set<string> := {}
  const PRELOADS: seq<string> := ["UserOrgMap"]

  /** Loading a relation the model does not declare is an error, if there is a row to load it for. */
  predicate Supported(preloads: seq<string>) {
    forall p <- preloads :: p in RELATIONS
  }

  function FirstRow(rows: seq<Row>, condition: Row -> bool): (r: Option<Row>)
    ensures r.Some? ==> r.value in rows && condition(r.value)
    ensures r.None? ==> forall x <- rows :: !condition(x)
  {
    if rows == [] then None
    else if condition(rows[0]) then Some(rows[0])
    else
      var r := FirstRow(rows[1..], condition);
      assert rows == [rows[0]] + rows[1..];
      r
  }

  /** What `FindOne` comes to. An error can leave its out-parameter filled in: `scanned`. */
  datatype Finding = Fetched(row: Row) | NoSuchRow | FindFailed(scanned: Option<Row>)

  /** `up`: the database answers. If it does not, it may still have done so until after the scan. */
  function Find(rows: seq<Row>, condition: Row -> bool, preloads: seq<string>, up: bool, late: bool): Finding {
    var row := FirstRow(rows, condition);
    if !up && !late then FindFailed(None)
    else if row.None? then (if up then NoSuchRow else FindFailed(None))
    else if up && Supported(preloads) then Fetched(row.value)
    else FindFailed(row)
  }

  /** What is left for a caller that heeds the error. */
  function Accepted(f: Finding): Option<Row> {
    match f
    case Fetched(row) => Some(row)
    case _ => None
  }

  lemma NotSupported()
    ensures !Supported(PRELOADS)
  {
    assert PRELOADS[0] in PRELOADS;
  }

  /** No lookup of a user ever ends without an error. */
  lemma NeverFetched(rows: seq<Row>, condition: Row -> bool, up: bool, late: bool)
    ensures !Find(rows, condition, PRELOADS, up, late).Fetched?
    ensures up ==> (Find(rows, condition, PRELOADS, up, late).NoSuchRow? <==> forall x <- rows :: !condition(x))
  {
    NotSupported();
  }

  /** What a lookup by phone or email comes to; `EmptyUser` is a user with no field filled in. */
  datatype Lookup = User(row: Row) | EmptyUser | NotFound | LookupFailed

  predicate LookupOk(rows: seq<Row>, reliable: bool, phone: string, email: string, found: Lookup) {
    match found
    case User(row) => row in rows && row.phone == phone
    case EmptyUser => !reliable
    case NotFound => !Taken(rows, phone, email)
    case LookupFailed =>
      (forall x <- rows :: x.phone != phone) && (reliable ==> exists x <- rows :: x.email == email)
  }

  /** The database: any call may fail for reasons of its own, unless it is `reliable`. */
  class UserRepo {
    var rows: seq<Row>
    const reliable: bool

    constructor (reliable: bool)
      ensures rows == [] && this.reliable == reliable
    {
      this.reliable, rows := reliable, [];
    }

    method Up() returns (up: bool)
      ensures reliable ==> up
    {
      up := *;
      up := up || reliable;
    }

    method FindOne(condition: Row -> bool, preloads: seq<string>) returns (r: Finding)
      ensures r.Fetched? ==> Supported(preloads) && r.row in rows && condition(r.row)
      ensures r.NoSuchRow? ==> forall x <- rows :: !condition(x)
      ensures r.FindFailed? && r.scanned.Some? ==>
        r.scanned.value in rows && condition(r.scanned.value) && (reliable ==> !Supported(preloads))
      ensures r.FindFailed? && r.scanned.None? ==> !reliable
    {
      var up := Up();
      var late: bool := *;
      r := Find(rows, condition, preloads, up, late);
    }

    /** The email is looked up only when no row has the phone. Any other error of the first lookup
        is dropped, and the user returned as far as it was filled in. */
    method GetUserByPhoneOREmail(phone: string, email: string) returns (r: Lookup)
      ensures LookupOk(rows, reliable, phone, email, r)
    {
      NotSupported();
      var first := FindOne((x: Row) => x.phone == phone, PRELOADS);
      match first
      case Fetched(row) => r := User(row);
      case FindFailed(Some(row)) => r := User(row);
      case FindFailed(None) => r := EmptyUser;
      case NoSuchRow =>
        var second := FindOne((x: Row) => x.email == email, PRELOADS);
        match second
        case Fetched(row) => r := User(row);
        case FindFailed(_) => r := LookupFailed;
        case NoSuchRow => r := NotFound;
    }

    /** No id leads to a user: if there is one, loading its relation fails. */
    method GetUserById(id: string) returns (r: Option<Row>)
      ensures r.None?
    {
      NotSupported();
      var found := FindOne((x: Row) => IdText(x.id) == id, PRELOADS);
      r := Accepted(found);
    }

    /** `id` is the next one of the table's sequence. An insert that reports an error may have been
        stored all the same. */
    method CreateUser(id: int, hash: string, req: SignupRequest) returns (r: Option<Row>)
      requires Unique(rows)
      modifies this
      ensures Unique(rows)
      ensures r.Some? ==>
        && rows == old(rows) + [r.value]
        && r.value == Row(id, req.username, req.phone, req.email, hash, req.orgId, req.roles)
      ensures rows != old(rows) ==>
        Insertable(old(rows), RowOf(id, hash, req)) && rows == old(rows) + [RowOf(id, hash, req)]
      ensures reliable ==> (r.Some? <==> Insertable(old(rows), RowOf(id, hash, req))) && (r.None? ==> rows == old(rows))
    {
      var up := Up();
      var stored: bool := *;
      var row := RowOf(id, hash, req);
      if !Insertable(rows, row) {
        return None;
      }
      if up || stored {
        rows := rows + [row];
      }
      r := if up then Some(row) else None;
    }
  }

  /** The certificate authority: each name is registered once, with its secret. */
  class Authority {
    var secrets: map<string, string>
    const reliable: bool

    constructor (reliable: bool)
      ensures secrets == map[] && this.reliable == reliable
    {
      secrets, this.reliable := map[], reliable;
    }

    method Register(username: string, secret: string) returns (ok: bool)
      modifies this
      ensures secrets == old(secrets) || (username !in old(secrets) && secrets == old(secrets)[username := secret])
      ensures ok ==> username !in old(secrets) && secrets == old(secrets)[username := secret]
      ensures reliable ==> (ok <==> username !in old(secrets))
    {
      var stored: bool := *;
      ok := *;
      ok := (ok || reliable) && username !in secrets;
      if ok || (stored && username !in secrets) {
        secrets := secrets[username := secret];
      }
    }
  }

  class UserService {
    const repo: UserRepo
    const ca: Authority
    /** Whether a password matches a hash; nothing matches the empty one. */
    const matches: (string, string) -> bool

    constructor (repo: UserRepo, ca: Authority, matches: (string, string) -> bool)
      ensures this.repo == repo && this.ca == ca && this.matches == matches
    {
      this.repo, this.ca, this.matches := repo, ca, matches;
    }

    /** A token payload for a new user, or an error; `hashed` is what hashing the password gives.
        A row once stored stays, whatever fails after. */
    method SignUpUser(req: SignupRequest, hashed: Option<string>, id: int) returns (r: Option<Payload>)
      requires Unique(repo.rows)
      modifies repo, ca
      ensures Unique(repo.rows)
      ensures repo.rows == old(repo.rows) ||
        (hashed.Some? && FreshId(old(repo.rows), id) && !Taken(old(repo.rows), req.phone, req.email)
          && repo.rows == old(repo.rows)
            + [Row(id, req.username, req.phone, req.email, hashed.value, req.orgId, req.roles)])
      ensures ca.secrets == old(ca.secrets) ||
        (repo.rows != old(repo.rows) && req.username !in old(ca.secrets)
          && ca.secrets == old(ca.secrets)[req.username := hashed.value])
      ensures r.Some? ==>
        && repo.rows != old(repo.rows)
        && ca.secrets != old(ca.secrets)
        && r.value == Payload(IdText(id), req.email, req.roles, req.phone)
      ensures repo.reliable && ca.reliable ==>
        (r.Some? <==>
          && hashed.Some?
          && FreshId(old(repo.rows), id)
          && !Taken(old(repo.rows), req.phone, req.email)
          && req.username !in old(ca.secrets))
    {
      var found := repo.GetUserByPhoneOREmail(req.phone, req.email);
      if !found.NotFound? {
        return None;
      }
      if hashed.None? {
        return None;
      }
      var created := repo.CreateUser(id, hashed.value, req);
      if created.None? {
        return None;
      }
      var ok := ca.Register(created.value.username, created.value.hash);
      if !ok {
        return None;
      }
      r := Some(UserPayload(created.value));
    }

    /** `found` is what the lookup came to. */
    method Login(identifier: string, password: string) returns (r: Option<Payload>, ghost found: Lookup)
      requires forall p :: !matches("", p)
      ensures LookupOk(repo.rows, repo.reliable, identifier, identifier, found)
      ensures r.Some? <==> found.User? && matches(found.row.hash, password)
      ensures r.Some? ==>
        r.value == Payload(IdText(found.row.id), found.row.email, found.row.roles, found.row.phone)
      ensures repo.reliable && Unique(repo.rows) ==>
        (r.Some? <==> exists row <- repo.rows :: row.phone == identifier && matches(row.hash, password))
    {
      var user := repo.GetUserByPhoneOREmail(identifier, identifier);
      found := user;
      match user
      case User(row) =>
        PhoneOnce(repo.rows, row);
        r := if matches(row.hash, password) then Some(UserPayload(row)) else None;
      case EmptyUser => r := if matches("", password) then Some(UserPayload(Row(0, "", "", "", "", "", []))) else None;
      case _ => r := None;
    }

    /** Without a password to check, the empty user gets a token: of id 0 and with no roles. */
    method SSOLogin(email: string) returns (r: Option<Payload>, ghost found: Lookup)
      ensures LookupOk(repo.rows, repo.reliable, email, email, found)
      ensures r.Some? <==> found.User? || found.EmptyUser?
      ensures found.User? ==>
        r == Some(Payload(IdText(found.row.id), found.row.email, found.row.roles, found.row.phone))
      ensures found.EmptyUser? ==> r == Some(Payload("0", "", [], ""))
      ensures repo.reliable ==> (r.Some? <==> exists row <- repo.rows :: row.phone == email)
    {
      var user := repo.GetUserByPhoneOREmail(email, email);
      found := user;
      match user
      case User(row) => r := Some(UserPayload(row));
      case EmptyUser =>
        r := Some(UserPayload(Row(0, "", "", "", "", "", [])));
        assert IdText(0) == "0";
      case _ => r := None;
    }
  }

  lemma PhoneOnce(rows: seq<Row>, row: Row)
    requires row in rows
    ensures Unique(rows) ==> forall other <- rows :: other.phone == row.phone ==> other == row
  {
  }
}
