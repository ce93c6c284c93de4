/** Sign-up, registration and enrolment as the interleaved steps of any number of clients. */
module Enrolment {
  import opened Text
  import opened Decimal
  import opened Accounts

  /** What a client asks for: one of the two sign-up calls, or the handlers that register or enrol
      the user whose id a request header names. */
  datatype Job =
    | SignUp(req: SignupRequest)
    | SignUpAndEnrol(req: SignupRequest)
    | Register(userId: string)
    | Enrol(userId: string)
  {
    predicate SigningUp() { SignUp? || SignUpAndEnrol? }
  }

  datatype Stage =
    | ByPhone
    | ByEmail
    | Hashing
    | Inserting(hash: string)
    | ById
    | Registering(row: Row)
    | Enrolling(row: Row)
    | Storing(row: Row)
    | Done(row: Row)
    | Failed

  datatype Client = Client(job: Job, stage: Stage)

  /** The stored rows with the client that inserted each, the authority's secrets, the names under
      which the vault holds files, and the history of accepted registrations and enrolments.
      `takes` says which names the vault can store files for at all, and never changes. */
  datatype State = State(
    rows: seq<Row>,
    owners: seq<nat>,
    secrets: map<string, string>,
    vault: set<string>,
    clients: map<nat, Client>,
    registrations: seq<Row>,
    enrolments: seq<Row>,
    takes: string -> bool)

  function Initial(takes: string -> bool): State {
    State([], [], map[], {}, map[], [], [], takes)
  }

  /** One step of one client. An effect may take place although the call reports an error. */
  datatype Event =
    | Arrives(c: nat, job: Job)
    | LooksUp(c: nat, up: bool)
    | Hashes(c: nat, result: Option<string>)
    | Inserts(c: nat, id: int, stored: bool, reported: bool)
    | Fetches(c: nat, up: bool, late: bool)
    | Registers(c: nat, accepted: bool, reported: bool)
    | Enrols(c: nat, accepted: bool, reported: bool)
    | Stores(c: nat, wrote: bool, reported: bool)

  predicate Enabled(s: State, e: Event) {
    match e
    case Arrives(c, _) => c !in s.clients
    case _ => e.c in s.clients && Ready(s.clients[e.c], e)
  }

  predicate Ready(x: Client, e: Event) {
    match e
    case Arrives(_, _) => false
    case LooksUp(_, _) => x.job.SigningUp() && (x.stage.ByPhone? || x.stage.ByEmail?)
    case Hashes(_, _) => x.stage.Hashing?
    case Inserts(_, _, _, _) => x.job.SigningUp() && x.stage.Inserting?
    case Fetches(_, _, _) => !x.job.SigningUp() && x.stage.ById?
    case Registers(_, _, _) => x.stage.Registering?
    case Enrols(_, _, _) => x.stage.Enrolling?
    case Stores(_, _, _) => x.stage.Storing?
  }

  /** Both handlers take the user by id; registering wants a header that is not empty first. */
  function Fetched(rows: seq<Row>, job: Job, up: bool, late: bool): Stage
    requires !job.SigningUp()
  {
    if job.Register? && job.userId == "" then Failed
    else match Accepted(Find(rows, (x: Row) => IdText(x.id) == job.userId, PRELOADS, up, late))
      case None => Failed
      case Some(row) => if job.Register? then Registering(row) else Enrolling(row)
  }

  /** A lookup that fails or finds a user ends the sign-up. */
  function Looked(rows: seq<Row>, req: SignupRequest, stage: Stage, up: bool): Stage {
    if !up then Failed
    else if stage.ByPhone? then (if exists r <- rows :: r.phone == req.phone then Failed else ByEmail)
    else (if exists r <- rows :: r.email == req.email then Failed else Hashing)
  }

  function Insert(s: State, c: nat, row: Row): State {
    s.(rows := s.rows + [row], owners := s.owners + [c])
  }

  function AddSecret(s: State, row: Row): State {
    s.(secrets := s.secrets[row.username := row.hash], registrations := s.registrations + [row])
  }

  function AddEnrolment(s: State, row: Row): State {
    s.(enrolments := s.enrolments + [row])
  }

  function AddFiles(s: State, row: Row): State {
    s.(vault := s.vault + {row.username})
  }

  /** The authority lets a name enrol with the secret it was registered with. */
  predicate Accepts(secrets: map<string, string>, row: Row) {
    row.username in secrets && secrets[row.username] == row.hash
  }

  /** The row an inserting, registering, enrolling or storing step is about. */
  function Subject(x: Client, e: Event): Row
    requires Ready(x, e) && !e.LooksUp? && !e.Hashes? && !e.Fetches?
  {
    if e.Inserts? then RowOf(e.id, x.stage.hash, x.job.req) else x.stage.row
  }

  /** Whether the step changes the table, the authority or the vault. */
  predicate Lands(s: State, e: Event)
    requires Enabled(s, e)
  {
    match e
    case Inserts(c, _, stored, _) => stored && Insertable(s.rows, Subject(s.clients[c], e))
    case Registers(c, accepted, _) => accepted && Subject(s.clients[c], e).username !in s.secrets
    case Enrols(c, accepted, _) => accepted && Accepts(s.secrets, Subject(s.clients[c], e))
    case Stores(_, wrote, _) => wrote
    case _ => false
  }

  /** Whether the call can report success; storing is done when the vault takes the files. */
  predicate Succeeds(s: State, e: Event)
    requires Enabled(s, e)
  {
    match e
    case Stores(c, _, _) => s.takes(Subject(s.clients[c], e).username)
    case _ => Lands(s, e)
  }

  function Effect(s: State, e: Event): State
    requires Enabled(s, e)
  {
    if !Lands(s, e) then s else
      var row := Subject(s.clients[e.c], e);
      match e
      case Inserts(c, _, _, _) => Insert(s, c, row)
      case Registers(_, _, _) => AddSecret(s, row)
      case Enrols(_, _, _) => AddEnrolment(s, row)
      case _ => AddFiles(s, row)
  }

  function NextClient(s: State, e: Event): Client
    requires Enabled(s, e)
  {
    match e
    case Arrives(c, job) => Client(job, if job.SigningUp() then ByPhone else ById)
    case LooksUp(c, up) => s.clients[c].(stage := Looked(s.rows, s.clients[c].job.req, s.clients[c].stage, up))
    case Hashes(c, result) => s.clients[c].(stage := if result.Some? then Inserting(result.value) else Failed)
    case Fetches(c, up, late) => s.clients[c].(stage := Fetched(s.rows, s.clients[c].job, up, late))
    case _ =>
      s.clients[e.c].(stage :=
        if e.reported && Succeeds(s, e) then Onward(s.clients[e.c].job, e, Subject(s.clients[e.c], e)) else Failed)
  }

  /** Where a client goes when the call it waited for reports success. */
  function Onward(job: Job, e: Event, row: Row): Stage {
    if e.Inserts? then Registering(row)
    else if e.Registers? && job.SignUpAndEnrol? then Enrolling(row)
    else if e.Enrols? then Storing(row)
    else Done(row)
  }

  function Put(s: State, c: nat, x: Client): State {
    s.(clients := s.clients[c := x])
  }

  function Next(s: State, e: Event): State
    requires Enabled(s, e)
  {
    Put(Effect(s, e), e.c, NextClient(s, e))
  }

  predicate IsRun(s: State, run: seq<Event>)
    decreases |run|
  {
    run == [] || (Enabled(s, run[0]) && IsRun(Next(s, run[0]), run[1..]))
  }

  function After(s: State, run: seq<Event>): State
    requires IsRun(s, run)
    decreases |run|
  {
    if run == [] then s else After(Next(s, run[0]), run[1..])
  }

  // ---- What every step keeps ----

  predicate Owns(s: State, c: nat, row: Row) {
    exists i :: 0 <= i < |s.rows| && i < |s.owners| && s.owners[i] == c && s.rows[i] == row
  }

  predicate RowsOk(s: State) {
    && |s.owners| == |s.rows|
    && Unique(s.rows)
    && (forall i, j :: 0 <= i < j < |s.owners| ==> s.owners[i] != s.owners[j])
    && (forall i :: 0 <= i < |s.rows| ==> Inserted(s.clients, s.owners[i], s.rows[i]))
  }

  /** The row holds exactly the data of the client's request. */
  predicate Inserted(clients: map<nat, Client>, c: nat, row: Row) {
    && c in clients
    && clients[c].job.SigningUp()
    && row == RowOf(row.id, row.hash, clients[c].job.req)
    && IsUint64(row.id)
  }

  predicate DistinctNames(rs: seq<Row>) {
    forall i, j :: 0 <= i < j < |rs| ==> rs[i].username != rs[j].username
  }

  predicate AuthorityOk(s: State) {
    && (forall r <- s.registrations :: r in s.rows && Accepts(s.secrets, r))
    && DistinctNames(s.registrations)
    && (forall u <- s.secrets :: RegisteredName(s, u))
    && (forall r <- s.enrolments :: r in s.rows && Accepts(s.secrets, r))
    && (forall u <- s.vault :: EnrolledName(s, u))
  }

  predicate RegisteredName(s: State, u: string) {
    exists r <- s.registrations :: r.username == u
  }

  predicate EnrolledName(s: State, u: string) {
    exists r <- s.enrolments :: r.username == u
  }

  predicate ClientOk(s: State, c: nat, x: Client) {
    match x.stage
    case Failed => true
    case ById => !x.job.SigningUp()
    case Registering(row) => x.job.SigningUp() && Owns(s, c, row)
    case Enrolling(row) => x.job.SignUpAndEnrol? && Owns(s, c, row) && row in s.registrations
    case Storing(row) => x.job.SignUpAndEnrol? && Owns(s, c, row) && row in s.registrations && row in s.enrolments
    case Done(row) =>
      && x.job.SigningUp()
      && Owns(s, c, row)
      && row in s.registrations
      && (x.job.SignUpAndEnrol? ==> row in s.enrolments && s.takes(row.username))
    case _ => x.job.SigningUp() && c !in s.owners
  }

  predicate Inv(s: State) {
    && RowsOk(s)
    && AuthorityOk(s)
    && (forall c <- s.clients :: ClientOk(s, c, s.clients[c]))
  }

  /** Nothing that was stored, registered or enrolled is ever changed or lost. */
  ghost predicate Grows(s: State, t: State) {
    && s.rows <= t.rows
    && s.owners <= t.owners
    && s.registrations <= t.registrations
    && s.enrolments <= t.enrolments
    && s.vault <= t.vault
    && s.takes == t.takes
    && (forall u <- s.secrets :: u in t.secrets && t.secrets[u] == s.secrets[u])
    && (forall c <- s.clients :: c in t.clients && t.clients[c].job == s.clients[c].job)
  }

  lemma ClientOkGrows(s: State, t: State, c: nat, x: Client)
    requires Grows(s, t) && ClientOk(s, c, x)
    requires |s.owners| == |s.rows|
    requires forall i :: |s.owners| <= i < |t.owners| ==> t.owners[i] != c
    ensures ClientOk(t, c, x)
  {
    if x.stage.Registering? || x.stage.Enrolling? || x.stage.Storing? || x.stage.Done? {
      OwnsGrows(s, t, c, x.stage.row);
    }
  }

  lemma EffectGrows(s: State, e: Event)
    requires Enabled(s, e)
    ensures Grows(s, Effect(s, e)) && Effect(s, e).clients == s.clients
    ensures Effect(s, e).owners == s.owners || Effect(s, e).owners == s.owners + [e.c]
  {
  }

  lemma PutGrows(s: State, t: State, c: nat, x: Client)
    requires Grows(s, t) && (c in s.clients ==> x.job == s.clients[c].job)
    ensures Grows(s, Put(t, c, x))
  {
  }

  lemma NextGrows(s: State, e: Event)
    requires Enabled(s, e)
    ensures Grows(s, Next(s, e))
  {
    EffectGrows(s, e);
    PutGrows(s, Effect(s, e), e.c, NextClient(s, e));
  }

  /** A step of one client keeps every other client's claims. */
  lemma OthersKeep(s: State, e: Event)
    requires Inv(s) && Enabled(s, e)
    ensures forall c <- s.clients | c != e.c :: ClientOk(Next(s, e), c, Next(s, e).clients[c])
  {
    var t := Next(s, e);
    NextGrows(s, e);
    EffectGrows(s, e);
    forall c <- s.clients | c != e.c
      ensures ClientOk(t, c, t.clients[c])
    {
      assert t.clients[c] == s.clients[c];
      ClientOkGrows(s, t, c, s.clients[c]);
    }
  }

  lemma RowsOkPut(s: State, c: nat, x: Client)
    requires RowsOk(s) && (c in s.clients ==> x.job == s.clients[c].job)
    ensures RowsOk(Put(s, c, x))
  {
    var t := Put(s, c, x);
    forall i | 0 <= i < |t.rows|
      ensures Inserted(t.clients, t.owners[i], t.rows[i])
    {
      assert Inserted(s.clients, s.owners[i], s.rows[i]);
    }
  }

  lemma RowsOkInsert(s: State, c: nat, row: Row)
    requires RowsOk(s) && c !in s.owners && Insertable(s.rows, row) && Inserted(s.clients, c, row)
    ensures RowsOk(Insert(s, c, row)) && Owns(Insert(s, c, row), c, row)
  {
    var t := Insert(s, c, row);
    assert t.rows[|s.rows|] == row && t.owners[|s.rows|] == c;
  }

  lemma StepRows(s: State, e: Event)
    requires RowsOk(s) && Enabled(s, e) && (e.Arrives? || ClientOk(s, e.c, s.clients[e.c]))
    ensures RowsOk(Next(s, e))
  {
    assert RowsOk(Effect(s, e)) by {
      if e.Inserts? && Lands(s, e) {
        RowsOkInsert(s, e.c, Subject(s.clients[e.c], e));
      }
    }
    RowsOkPut(Effect(s, e), e.c, NextClient(s, e));
  }

  lemma NamesGrow(s: State, t: State)
    requires s.registrations <= t.registrations && s.enrolments <= t.enrolments
    ensures forall u :: RegisteredName(s, u) ==> RegisteredName(t, u)
    ensures forall u :: EnrolledName(s, u) ==> EnrolledName(t, u)
  {
    forall u | RegisteredName(s, u)
      ensures RegisteredName(t, u)
    {
      var r :| r in s.registrations && r.username == u;
      assert r in t.registrations;
    }
    forall u | EnrolledName(s, u)
      ensures EnrolledName(t, u)
    {
      var r :| r in s.enrolments && r.username == u;
      assert r in t.enrolments;
    }
  }

  lemma NewSecret(secrets: map<string, string>, row: Row)
    requires row.username !in secrets
    ensures Accepts(secrets[row.username := row.hash], row)
    ensures forall r :: Accepts(secrets, r) ==>
      r.username != row.username && Accepts(secrets[row.username := row.hash], r)
  {
  }

  lemma DistinctMore(rs: seq<Row>, row: Row)
    requires DistinctNames(rs) && forall r <- rs :: r.username != row.username
    ensures DistinctNames(rs + [row])
  {
  }

  lemma AuthorityOkSecret(s: State, row: Row)
    requires AuthorityOk(s) && row in s.rows && row.username !in s.secrets
    ensures AuthorityOk(AddSecret(s, row))
  {
    var t := AddSecret(s, row);
    NewSecret(s.secrets, row);
    DistinctMore(s.registrations, row);
    NamesGrow(s, t);
    assert row in t.registrations;
    assert RegisteredName(t, row.username);
  }

  lemma AuthorityOkEnrolment(s: State, row: Row)
    requires AuthorityOk(s) && row in s.rows && Accepts(s.secrets, row)
    ensures AuthorityOk(AddEnrolment(s, row))
  {
    NamesGrow(s, AddEnrolment(s, row));
  }

  lemma AuthorityOkFiles(s: State, row: Row)
    requires AuthorityOk(s) && row in s.enrolments
    ensures AuthorityOk(AddFiles(s, row))
  {
    NamesGrow(s, AddFiles(s, row));
    assert EnrolledName(AddFiles(s, row), row.username);
  }

  lemma AuthorityOkInsert(s: State, c: nat, row: Row)
    requires AuthorityOk(s)
    ensures AuthorityOk(Insert(s, c, row))
  {
    NamesGrow(s, Insert(s, c, row));
  }

  lemma AuthorityOkPut(s: State, c: nat, x: Client)
    requires AuthorityOk(s)
    ensures AuthorityOk(Put(s, c, x))
  {
    NamesGrow(s, Put(s, c, x));
  }

  lemma StepAuthority(s: State, e: Event)
    requires AuthorityOk(s) && Enabled(s, e) && (e.Arrives? || ClientOk(s, e.c, s.clients[e.c]))
    ensures AuthorityOk(Next(s, e))
  {
    if Lands(s, e) {
      var row := Subject(s.clients[e.c], e);
      match e
      case Inserts(c, _, _, _) => AuthorityOkInsert(s, c, row);
      case Registers(_, _, _) => AuthorityOkSecret(s, row);
      case Enrols(_, _, _) => AuthorityOkEnrolment(s, row);
      case Stores(_, _, _) => AuthorityOkFiles(s, row);
    }
    AuthorityOkPut(Effect(s, e), e.c, NextClient(s, e));
  }

  lemma OwnsGrows(s: State, t: State, c: nat, row: Row)
    requires s.rows <= t.rows && s.owners <= t.owners && Owns(s, c, row)
    ensures Owns(t, c, row)
  {
    var i :| 0 <= i < |s.rows| && i < |s.owners| && s.owners[i] == c && s.rows[i] == row;
    assert t.owners[i] == c && t.rows[i] == row;
  }

  lemma OwnArrival(s: State, c: nat)
    requires RowsOk(s) && c !in s.clients
    ensures c !in s.owners
  {
    forall i | 0 <= i < |s.owners|
      ensures s.owners[i] != c
    {
      assert Inserted(s.clients, s.owners[i], s.rows[i]);
    }
  }

  lemma StepOwnInsert(s: State, e: Event)
    requires RowsOk(s) && Enabled(s, e) && e.Inserts? && ClientOk(s, e.c, s.clients[e.c])
    ensures ClientOk(Next(s, e), e.c, NextClient(s, e))
  {
    if Lands(s, e) {
      var row := Subject(s.clients[e.c], e);
      RowsOkInsert(s, e.c, row);
      OwnsGrows(Insert(s, e.c, row), Next(s, e), e.c, row);
    }
  }

  /** The claim of a client that has a row is kept, with what a landing step adds to it. */
  lemma StepOwnLater(s: State, e: Event)
    requires Enabled(s, e) && (e.Registers? || e.Enrols? || e.Stores?) && ClientOk(s, e.c, s.clients[e.c])
    ensures ClientOk(Next(s, e), e.c, NextClient(s, e))
  {
    OwnsGrows(s, Next(s, e), e.c, s.clients[e.c].stage.row);
  }

  lemma StepOwn(s: State, e: Event)
    requires RowsOk(s) && Enabled(s, e) && (e.Arrives? || ClientOk(s, e.c, s.clients[e.c]))
    ensures ClientOk(Next(s, e), e.c, NextClient(s, e))
  {
    match e
    case Arrives(c, _) => OwnArrival(s, c);
    case Inserts(_, _, _, _) => StepOwnInsert(s, e);
    case Registers(_, _, _) => StepOwnLater(s, e);
    case Enrols(_, _, _) => StepOwnLater(s, e);
    case Stores(_, _, _) => StepOwnLater(s, e);
    case Fetches(c, up, late) => FetchFails(s.rows, s.clients[c].job, up, late);
    case _ =>
  }

  /** Neither handler ever gets a user to work on. */
  lemma FetchFails(rows: seq<Row>, job: Job, up: bool, late: bool)
    requires !job.SigningUp()
    ensures Fetched(rows, job, up, late) == Failed
  {
    NeverFetched(rows, (x: Row) => IdText(x.id) == job.userId, up, late);
  }

  lemma StepKeeps(s: State, e: Event)
    requires Inv(s) && Enabled(s, e)
    ensures Inv(Next(s, e)) && Grows(s, Next(s, e))
  {
    StepRows(s, e);
    StepAuthority(s, e);
    StepOwn(s, e);
    OthersKeep(s, e);
    NextGrows(s, e);
  }

  lemma GrowsTrans(s: State, t: State, u: State)
    requires Grows(s, t) && Grows(t, u)
    ensures Grows(s, u)
  {
  }

  lemma {:induction false} RunKeeps(s: State, run: seq<Event>)
    requires Inv(s) && IsRun(s, run)
    ensures Inv(After(s, run)) && Grows(s, After(s, run))
    decreases |run|
  {
    if run != [] {
      StepKeeps(s, run[0]);
      RunKeeps(Next(s, run[0]), run[1..]);
      GrowsTrans(s, Next(s, run[0]), After(s, run));
    }
  }

  // ---- What holds in every run ----

  ghost predicate Leads(s: State, t: State) {
    exists run :: IsRun(s, run) && After(s, run) == t
  }

  ghost predicate Reachable(s: State) {
    Leads(Initial(s.takes), s)
  }

  lemma LeadsKeeps(s: State, t: State)
    requires Inv(s) && Leads(s, t)
    ensures Inv(t) && Grows(s, t)
  {
    var run :| IsRun(s, run) && After(s, run) == t;
    RunKeeps(s, run);
  }

  lemma ReachableOk(s: State)
    requires Reachable(s)
    ensures Inv(s)
  {
    LeadsKeeps(Initial(s.takes), s);
  }

  /** No two rows ever share an id, a phone or an email, and each holds what one client asked for. */
  lemma NoSharedContact(s: State)
    requires Reachable(s)
    ensures Unique(s.rows)
    ensures |s.owners| == |s.rows|
    ensures forall i, j :: 0 <= i < j < |s.owners| ==> s.owners[i] != s.owners[j]
    ensures forall i :: 0 <= i < |s.rows| ==> Inserted(s.clients, s.owners[i], s.rows[i])
  {
    ReachableOk(s);
  }

  predicate SignedUp(s: State, c: nat) {
    c in s.clients && s.clients[c].job.SigningUp() && s.clients[c].stage.Done?
  }

  predicate Competing(a: SignupRequest, b: SignupRequest) {
    a.phone == b.phone || a.email == b.email
  }

  /** A client whose sign-up succeeded owns a stored and registered row with its request's data. */
  lemma Winner(s: State, c: nat) returns (i: nat)
    requires Inv(s) && SignedUp(s, c)
    ensures i < |s.rows| && i < |s.owners| && s.owners[i] == c && s.rows[i] == s.clients[c].stage.row
    ensures s.rows[i] == RowOf(s.rows[i].id, s.rows[i].hash, s.clients[c].job.req)
    ensures s.rows[i] in s.registrations && Accepts(s.secrets, s.rows[i])
  {
    assert ClientOk(s, c, s.clients[c]);
    i :| 0 <= i < |s.rows| && i < |s.owners| && s.owners[i] == c && s.rows[i] == s.clients[c].stage.row;
    assert Inserted(s.clients, s.owners[i], s.rows[i]);
  }

  /** Of competing sign-ups at most one succeeds, and what it answers for is stored and registered. */
  lemma OneWinner(s: State, c: nat, d: nat)
    requires Reachable(s) && SignedUp(s, c) && SignedUp(s, d)
    ensures c != d ==> !Competing(s.clients[c].job.req, s.clients[d].job.req)
    ensures var row := s.clients[c].stage.row;
      row in s.rows && row == RowOf(row.id, row.hash, s.clients[c].job.req) && Accepts(s.secrets, row)
  {
    ReachableOk(s);
    var i := Winner(s, c);
    var j := Winner(s, d);
  }

  lemma RowsDiffer(s: State, i: nat, j: nat)
    requires RowsOk(s) && i < |s.owners| && j < |s.owners| && s.owners[i] != s.owners[j]
    ensures s.rows[i].phone != s.rows[j].phone && s.rows[i].email != s.rows[j].email
  {
  }

  /** Once a client's row is stored no other client can sign up with that row's phone or email,
      however the first one fares afterwards. */
  lemma LockedOut(s: State, t: State, i: nat, d: nat)
    requires Reachable(s) && Leads(s, t) && i < |s.rows|
    requires SignedUp(t, d)
    requires (t.clients[d].job.req.phone == s.rows[i].phone || t.clients[d].job.req.email == s.rows[i].email)
    ensures i < |s.owners| && d == s.owners[i]
  {
    ReachableOk(s);
    LeadsKeeps(s, t);
    var j := Winner(t, d);
    if d != s.owners[i] {
      RowsDiffer(t, i, j);
    }
  }

  /** A registration is of a row inserted before it, and neither is ever changed afterwards. */
  lemma RegistersStoredRows(s: State, e: Event, t: State)
    requires Reachable(s) && Enabled(s, e) && e.Registers? && Lands(s, e) && Leads(Next(s, e), t)
    ensures var row := Subject(s.clients[e.c], e);
      row in s.rows && row.username !in s.secrets && row in t.rows && Accepts(t.secrets, row)
  {
    ReachableOk(s);
    assert ClientOk(s, e.c, s.clients[e.c]);
    StepKeeps(s, e);
    LeadsKeeps(Next(s, e), t);
    assert Accepts(Next(s, e).secrets, Subject(s.clients[e.c], e));
  }

  lemma NameRegistered(s: State, row: Row)
    requires AuthorityOk(s) && Accepts(s.secrets, row)
    ensures exists r <- s.registrations :: r.username == row.username && r.hash == row.hash
  {
    assert RegisteredName(s, row.username);
    var r :| r in s.registrations && r.username == row.username;
    assert Accepts(s.secrets, r);
  }

  /** Files are written for a row that was enrolled before, with the secret its name was
      registered with. */
  lemma FilesFollowEnrolment(s: State, e: Event)
    requires Reachable(s) && Enabled(s, e) && e.Stores?
    ensures var row := Subject(s.clients[e.c], e);
      row in s.enrolments && exists r <- s.registrations :: r.username == row.username && r.hash == row.hash
  {
    ReachableOk(s);
    assert ClientOk(s, e.c, s.clients[e.c]);
    NameRegistered(s, Subject(s.clients[e.c], e));
  }

  /** A name with files in the vault was enrolled. */
  lemma VaultNamesEnrolled(s: State, u: string)
    requires Reachable(s) && u in s.vault
    ensures exists r <- s.enrolments :: r.username == u && r in s.rows && Accepts(s.secrets, r)
  {
    ReachableOk(s);
    assert EnrolledName(s, u);
  }

  lemma SameId(rows: seq<Row>, a: Row, b: Row)
    requires Unique(rows) && a in rows && b in rows && a.id == b.id
    ensures a == b
  {
  }

  /** An enrolment presents the secret its row was registered with, whether or not it is let in. */
  lemma SameSecret(s: State, e: Event, r: Row)
    requires Reachable(s) && Enabled(s, e) && e.Enrols?
    requires r in s.registrations && r.id == Subject(s.clients[e.c], e).id
    ensures r == Subject(s.clients[e.c], e) && Accepts(s.secrets, r)
  {
    ReachableOk(s);
    assert ClientOk(s, e.c, s.clients[e.c]);
    SameId(s.rows, r, Subject(s.clients[e.c], e));
  }

  /** What one step changes, and when. */
  lemma ChangesIff(s: State, e: Event)
    requires Enabled(s, e)
    ensures Next(s, e).rows != s.rows <==>
      e.Inserts? && e.stored && FreshId(s.rows, e.id)
      && !Taken(s.rows, s.clients[e.c].job.req.phone, s.clients[e.c].job.req.email)
    ensures Next(s, e).registrations != s.registrations <==>
      e.Registers? && e.accepted && s.clients[e.c].stage.row.username !in s.secrets
    ensures Next(s, e).secrets != s.secrets ==> Next(s, e).registrations != s.registrations
    ensures Next(s, e).enrolments != s.enrolments <==>
      e.Enrols? && e.accepted && Accepts(s.secrets, s.clients[e.c].stage.row)
    ensures Next(s, e).vault == s.vault + if e.Stores? && e.wrote then {s.clients[e.c].stage.row.username} else {}
    ensures Next(s, e).clients - {e.c} == s.clients - {e.c} && e.c in Next(s, e).clients
  {
  }

  lemma OtherClient(s: State, e: Event, c: nat)
    requires Enabled(s, e) && c != e.c
    ensures c in Next(s, e).clients <==> c in s.clients
    ensures c in s.clients ==> Next(s, e).clients[c] == s.clients[c]
  {
  }

  /** A call that ends with an error. */
  predicate ReportsError(e: Event) {
    match e
    case Arrives(_, _) => false
    case LooksUp(_, up) => !up
    case Hashes(_, result) => result.None?
    case Inserts(_, _, _, reported) => !reported
    case Fetches(_, up, _) => !up
    case Registers(_, _, reported) => !reported
    case Enrols(_, _, reported) => !reported
    case Stores(_, _, reported) => !reported
  }

  lemma {:induction false} FailedStays(s: State, run: seq<Event>, c: nat)
    requires IsRun(s, run) && c in s.clients && s.clients[c].stage.Failed?
    ensures c in After(s, run).clients && After(s, run).clients[c] == s.clients[c]
    decreases |run|
  {
    if run != [] {
      assert run[0].c != c;
      OtherClient(s, run[0], c);
      FailedStays(Next(s, run[0]), run[1..], c);
    }
  }

  /** The first error a client is given ends it for good, whatever the call did all the same. */
  lemma FailureIsFinal(s: State, e: Event, t: State)
    requires Enabled(s, e) && ReportsError(e) && Leads(Next(s, e), t)
    ensures e.c in t.clients && t.clients[e.c] == Client(s.clients[e.c].job, Failed)
  {
    var run :| IsRun(Next(s, e), run) && After(Next(s, e), run) == t;
    if e.Fetches? {
      FetchFails(s.rows, s.clients[e.c].job, e.up, e.late);
    }
    FailedStays(Next(s, e), run, e.c);
  }

  predicate PhoneTaken(rows: seq<Row>, phone: string) {
    exists r <- rows :: r.phone == phone
  }

  predicate EmailTaken(rows: seq<Row>, email: string) {
    exists r <- rows :: r.email == email
  }

  /** Where a sign-up can be whose phone, or whose email, was taken when it came. */
  predicate StillLooking(s: State, c: nat, job: Job, phoneTaken: bool, emailTaken: bool) {
    c in s.clients && s.clients[c].job == job ==>
      && (phoneTaken ==> s.clients[c].stage.ByPhone? || s.clients[c].stage.Failed?)
      && (emailTaken ==> s.clients[c].stage.ByPhone? || s.clients[c].stage.ByEmail? || s.clients[c].stage.Failed?)
  }

  lemma LookingStep(s: State, e: Event, c: nat, job: Job, phone: bool, email: bool)
    requires Enabled(s, e) && job.SigningUp() && StillLooking(s, c, job, phone, email)
    requires phone ==> PhoneTaken(s.rows, job.req.phone)
    requires email ==> EmailTaken(s.rows, job.req.email)
    ensures StillLooking(Next(s, e), c, job, phone, email)
    ensures phone ==> PhoneTaken(Next(s, e).rows, job.req.phone)
    ensures email ==> EmailTaken(Next(s, e).rows, job.req.email)
  {
    NextGrows(s, e);
    if e.c != c {
      OtherClient(s, e, c);
    }
  }

  lemma {:induction false} LookingAlong(s: State, run: seq<Event>, c: nat, job: Job, phone: bool, email: bool)
    requires IsRun(s, run) && job.SigningUp() && StillLooking(s, c, job, phone, email)
    requires phone ==> PhoneTaken(s.rows, job.req.phone)
    requires email ==> EmailTaken(s.rows, job.req.email)
    ensures StillLooking(After(s, run), c, job, phone, email)
    decreases |run|
  {
    if run != [] {
      LookingStep(s, run[0], c, job, phone, email);
      LookingAlong(Next(s, run[0]), run[1..], c, job, phone, email);
    }
  }

  /** A sign-up that comes with a phone or an email already stored fails in its lookups: it never
      hashes a password, let alone tries to store a row or reaches the authority. */
  lemma TurnedAway(s: State, c: nat, job: Job, t: State)
    requires c !in s.clients && job.SigningUp() && Leads(s, t) && c in t.clients && t.clients[c].job == job
    ensures PhoneTaken(s.rows, job.req.phone) ==> t.clients[c].stage.ByPhone? || t.clients[c].stage.Failed?
    ensures EmailTaken(s.rows, job.req.email) ==>
      t.clients[c].stage.ByPhone? || t.clients[c].stage.ByEmail? || t.clients[c].stage.Failed?
  {
    var run :| IsRun(s, run) && After(s, run) == t;
    LookingAlong(s, run, c, job, PhoneTaken(s.rows, job.req.phone), EmailTaken(s.rows, job.req.email));
  }

  /** Every hash about to be stored, or stored, came out of hashing for that client. */
  predicate HashesOk(s: State, past: seq<Event>) {
    && (forall c <- s.clients :: s.clients[c].stage.Inserting? ==> Hashes(c, Some(s.clients[c].stage.hash)) in past)
    && |s.owners| == |s.rows|
    && (forall i :: 0 <= i < |s.rows| ==> Hashes(s.owners[i], Some(s.rows[i].hash)) in past)
  }

  lemma HashesStep(s: State, e: Event, past: seq<Event>)
    requires Enabled(s, e) && HashesOk(s, past)
    ensures HashesOk(Next(s, e), past + [e])
  {
  }

  lemma {:induction false} HashesAlong(s: State, run: seq<Event>, past: seq<Event>)
    requires IsRun(s, run) && HashesOk(s, past)
    ensures HashesOk(After(s, run), past + run)
    decreases |run|
  {
    if run == [] {
      assert past + run == past;
    } else {
      HashesStep(s, run[0], past);
      HashesAlong(Next(s, run[0]), run[1..], past + [run[0]]);
      assert past + [run[0]] + run[1..] == past + run;
    }
  }

  /** A stored row holds the hash that its own client's password was given. */
  lemma StoredHash(takes: string -> bool, run: seq<Event>, i: nat)
    requires IsRun(Initial(takes), run) && i < |After(Initial(takes), run).rows|
    ensures var t := After(Initial(takes), run);
      i < |t.owners| && Hashes(t.owners[i], Some(t.rows[i].hash)) in run
  {
    HashesAlong(Initial(takes), run, []);
    assert [] + run == run;
  }

  // ---- What can still happen ----

  lemma LeadsStep(s: State, e: Event, t: State)
    requires Enabled(s, e) && Leads(Next(s, e), t)
    ensures Leads(s, t)
  {
    var run :| IsRun(Next(s, e), run) && After(Next(s, e), run) == t;
    assert ([e] + run)[1..] == run;
    assert IsRun(s, [e] + run) && After(s, [e] + run) == t;
  }

  lemma LeadsSelf(s: State)
    ensures Leads(s, s)
  {
    assert IsRun(s, []) && After(s, []) == s;
  }

  /** A registered client goes on to its end when every call succeeds. */
  lemma CanFinish(s: State, c: nat, row: Row)
    requires c in s.clients && s.clients[c].job.SigningUp()
    requires s.clients[c].stage == Registering(row) && row.username !in s.secrets
    requires s.clients[c].job.SignUpAndEnrol? ==> s.takes(row.username)
    ensures exists t :: Leads(s, t) && SignedUp(t, c) && t.clients[c].job == s.clients[c].job
  {
    var s1 := Next(s, Registers(c, true, true));
    if s.clients[c].job.SignUp? {
      LeadsSelf(s1);
      LeadsStep(s, Registers(c, true, true), s1);
    } else {
      var s2 := Next(s1, Enrols(c, true, true));
      var s3 := Next(s2, Stores(c, true, true));
      LeadsSelf(s3);
      LeadsStep(s2, Stores(c, true, true), s3);
      LeadsStep(s1, Enrols(c, true, true), s3);
      LeadsStep(s, Registers(c, true, true), s3);
    }
  }

  predicate RegisteringNext(s: State, c: nat, job: Job) {
    && job.SigningUp()
    && c in s.clients
    && s.clients[c].job == job
    && s.clients[c].stage.Registering?
    && s.clients[c].stage.row.username == job.req.username
  }

  /** The authority and the vault stand as they did. */
  ghost predicate SameAnswers(s: State, t: State) {
    t.secrets == s.secrets && t.takes == s.takes
  }

  lemma CanInsert(s: State, c: nat, id: int)
    requires c in s.clients && s.clients[c].job.SigningUp() && s.clients[c].stage == ByPhone
    requires FreshId(s.rows, id) && !Taken(s.rows, s.clients[c].job.req.phone, s.clients[c].job.req.email)
    ensures exists t :: Leads(s, t) && RegisteringNext(t, c, s.clients[c].job) && SameAnswers(s, t)
  {
    var s1 := Next(s, LooksUp(c, true));
    var s2 := Next(s1, LooksUp(c, true));
    var s3 := Next(s2, Hashes(c, Some("")));
    var s4 := Next(s3, Inserts(c, id, true, true));
    LeadsSelf(s4);
    LeadsStep(s3, Inserts(c, id, true, true), s4);
    LeadsStep(s2, Hashes(c, Some("")), s4);
    LeadsStep(s1, LooksUp(c, true), s4);
    LeadsStep(s, LooksUp(c, true), s4);
  }

  lemma {:induction false} RunThen(s: State, run: seq<Event>, t: State)
    requires IsRun(s, run) && Leads(After(s, run), t)
    ensures Leads(s, t)
    decreases |run|
  {
    if run != [] {
      RunThen(Next(s, run[0]), run[1..], t);
      LeadsStep(s, run[0], t);
    }
  }

  lemma LeadsTrans(s: State, t: State, u: State)
    requires Leads(s, t) && Leads(t, u)
    ensures Leads(s, u)
  {
    var run :| IsRun(s, run) && After(s, run) == t;
    RunThen(s, run, u);
  }

  /** Nothing a sign-up needs is taken, and the vault takes the files of one that enrols. */
  predicate Free(s: State, job: Job)
    requires job.SigningUp()
  {
    && !Taken(s.rows, job.req.phone, job.req.email)
    && job.req.username !in s.secrets
    && (job.SignUpAndEnrol? ==> s.takes(job.req.username))
  }

  lemma CanSignUp(s: State, c: nat, job: Job, id: int)
    requires c !in s.clients && job.SigningUp() && Free(s, job) && FreshId(s.rows, id)
    ensures exists t :: Leads(s, t) && SignedUp(t, c) && t.clients[c].job == job
  {
    var s1 := Next(s, Arrives(c, job));
    CanInsert(s1, c, id);
    var s2 :| Leads(s1, s2) && RegisteringNext(s2, c, job) && SameAnswers(s1, s2);
    CanFinish(s2, c, s2.clients[c].stage.row);
    var t :| Leads(s2, t) && SignedUp(t, c) && t.clients[c].job == job;
    LeadsTrans(s1, s2, t);
    LeadsStep(s, Arrives(c, job), t);
  }

  lemma NewRegistration(s: State, t: State, row: Row)
    requires AuthorityOk(s) && AuthorityOk(t) && s.registrations <= t.registrations && row in t.registrations
    requires row !in s.rows
    ensures row.username !in s.secrets
  {
    var j :| 0 <= j < |t.registrations| && t.registrations[j] == row;
    forall i | 0 <= i < |s.registrations|
      ensures s.registrations[i].username != row.username
    {
      assert t.registrations[i] == s.registrations[i] && s.registrations[i] in s.registrations;
    }
    assert row.username in s.secrets ==> RegisteredName(s, row.username);
  }

  lemma NewRow(s: State, t: State, i: nat)
    requires RowsOk(s) && RowsOk(t) && Grows(s, t) && i < |t.rows| && t.owners[i] !in s.clients
    ensures t.rows[i] !in s.rows && Insertable(s.rows, t.rows[i])
  {
    forall k | 0 <= k < |s.rows|
      ensures s.owners[k] in s.clients && t.owners[k] == s.owners[k]
    {
      assert Inserted(s.clients, s.owners[k], s.rows[k]);
    }
    forall r <- s.rows
      ensures r.id != t.rows[i].id && r.phone != t.rows[i].phone && r.email != t.rows[i].email
    {
      var k :| 0 <= k < |s.rows| && s.rows[k] == r;
      assert t.rows[k] == r;
    }
  }

  lemma SignedUpWasFree(s: State, c: nat, job: Job, t: State)
    requires Inv(s) && c !in s.clients && job.SigningUp()
    requires Leads(s, t) && SignedUp(t, c) && t.clients[c].job == job
    ensures Free(s, job) && exists id :: FreshId(s.rows, id)
  {
    LeadsKeeps(s, t);
    var i := Winner(t, c);
    NewRow(s, t, i);
    NewRegistration(s, t, t.rows[i]);
    assert FreshId(s.rows, t.rows[i].id);
    if job.SignUpAndEnrol? {
      TakenIn(s, t, c);
    }
  }

  lemma TakenIn(s: State, t: State, c: nat)
    requires Inv(t) && Grows(s, t) && SignedUp(t, c) && t.clients[c].job.SignUpAndEnrol?
    ensures s.takes(t.clients[c].stage.row.username)
  {
    assert ClientOk(t, c, t.clients[c]);
  }

  /** A new client can still sign up exactly when its phone and email are unused, its name is not
      registered, the table has an id left, and the vault takes its files if it is to be enrolled. */
  lemma CanSignUpIff(s: State, c: nat, job: Job)
    requires Reachable(s) && c !in s.clients && job.SigningUp()
    ensures (exists t :: Leads(s, t) && SignedUp(t, c) && t.clients[c].job == job)
      <==> (Free(s, job) && exists id :: FreshId(s.rows, id))
  {
    ReachableOk(s);
    if Free(s, job) && exists id :: FreshId(s.rows, id) {
      var id :| FreshId(s.rows, id);
      CanSignUp(s, c, job, id);
    }
    if t :| Leads(s, t) && SignedUp(t, c) && t.clients[c].job == job {
      SignedUpWasFree(s, c, job, t);
    }
  }

  /** The handlers that register or enrol a stored user only ever fail. */
  lemma HandlersFail(s: State, c: nat)
    requires Reachable(s) && c in s.clients && !s.clients[c].job.SigningUp()
    ensures s.clients[c].stage.ById? || s.clients[c].stage.Failed?
  {
    ReachableOk(s);
    assert ClientOk(s, c, s.clients[c]);
  }

  /** The client that inserted a row is about to register it, and the name is free. */
  predicate AboutToRegister(s: State, row: Row, c: nat) {
    c in s.clients && s.clients[c].stage == Registering(row) && row.username !in s.secrets
  }

  predicate AboutToEnrol(s: State, row: Row, c: nat) {
    && c in s.clients
    && (s.clients[c].stage == Enrolling(row) || (AboutToRegister(s, row, c) && s.clients[c].job.SignUpAndEnrol?))
  }

  /** A row comes to be registered, or enrolled, only by a step of a client that was about to. */
  lemma OnlyIfAbout(s: State, e: Event, row: Row)
    requires Inv(s) && Enabled(s, e) && row in s.rows
    ensures row in Next(s, e).registrations && row !in s.registrations ==> AboutToRegister(s, row, e.c)
    ensures row in Next(s, e).enrolments && row !in s.enrolments ==> AboutToEnrol(s, row, e.c)
  {
  }

  lemma NewRowDiffers(s: State, e: Event, row: Row)
    requires Enabled(s, e) && e.Inserts? && Lands(s, e) && row in s.rows
    ensures Subject(s.clients[e.c], e) != row
  {
  }

  /** A client's step leads to a row that was there before only from a call about that row. */
  lemma AboutOwn(s: State, e: Event, row: Row)
    requires Inv(s) && Enabled(s, e) && row in s.rows
    ensures NextClient(s, e).stage != Registering(row)
    ensures NextClient(s, e).stage == Enrolling(row) ==> AboutToEnrol(s, row, e.c)
  {
    if e.Fetches? {
      FetchFails(s.rows, s.clients[e.c].job, e.up, e.late);
    } else if e.Inserts? && Lands(s, e) {
      NewRowDiffers(s, e, row);
    }
  }

  /** And a client is about to only if it was before the step. */
  lemma AboutBefore(s: State, e: Event, row: Row, c: nat)
    requires Inv(s) && Enabled(s, e) && row in s.rows
    ensures AboutToRegister(Next(s, e), row, c) ==> AboutToRegister(s, row, c)
    ensures AboutToEnrol(Next(s, e), row, c) ==> AboutToEnrol(s, row, c)
  {
    EffectGrows(s, e);
    AboutOwn(s, e, row);
  }

  lemma {:induction false} AboutAlong(s: State, run: seq<Event>, row: Row)
    requires Inv(s) && IsRun(s, run) && row in s.rows
    ensures row in After(s, run).registrations ==> row in s.registrations || exists c :: AboutToRegister(s, row, c)
    ensures row in After(s, run).enrolments ==> row in s.enrolments || exists c :: AboutToEnrol(s, row, c)
    decreases |run|
  {
    if run != [] {
      StepKeeps(s, run[0]);
      AboutAlong(Next(s, run[0]), run[1..], row);
      OnlyIfAbout(s, run[0], row);
      forall c {
        AboutBefore(s, run[0], row, c);
      }
    }
  }

  lemma CanRegister(s: State, row: Row, c: nat)
    requires AboutToRegister(s, row, c)
    ensures exists t :: Leads(s, t) && row in t.registrations
  {
    var t := Next(s, Registers(c, true, true));
    assert t.registrations[|s.registrations|] == row;
    LeadsSelf(t);
    LeadsStep(s, Registers(c, true, true), t);
  }

  lemma CanEnrol(s: State, row: Row, c: nat)
    requires c in s.clients && s.clients[c].stage == Enrolling(row) && Accepts(s.secrets, row)
    ensures exists t :: Leads(s, t) && row in t.enrolments
  {
    var t := Next(s, Enrols(c, true, true));
    assert t.enrolments[|s.enrolments|] == row;
    LeadsSelf(t);
    LeadsStep(s, Enrols(c, true, true), t);
  }

  /** A stored user is registered, now or later, only by the sign-up that stored it: it can be
      exactly while that sign-up is about to register it and the name is free. */
  lemma CanRegisterIff(s: State, row: Row)
    requires Reachable(s) && row in s.rows
    ensures (exists t :: Leads(s, t) && row in t.registrations)
      <==> row in s.registrations || exists c :: AboutToRegister(s, row, c)
  {
    ReachableOk(s);
    if row in s.registrations {
      LeadsSelf(s);
    } else if c :| AboutToRegister(s, row, c) {
      CanRegister(s, row, c);
    }
    forall t | Leads(s, t) && row in t.registrations
      ensures row in s.registrations || exists c :: AboutToRegister(s, row, c)
    {
      var run :| IsRun(s, run) && After(s, run) == t;
      AboutAlong(s, run, row);
    }
  }

  /** And it can be enrolled exactly while a sign-up that also enrols is about to do either. */
  lemma CanEnrolIff(s: State, row: Row)
    requires Reachable(s) && row in s.rows
    ensures (exists t :: Leads(s, t) && row in t.enrolments)
      <==> row in s.enrolments || exists c :: AboutToEnrol(s, row, c)
  {
    ReachableOk(s);
    if row in s.enrolments {
      LeadsSelf(s);
    } else if c :| AboutToEnrol(s, row, c) {
      if s.clients[c].stage == Enrolling(row) {
        assert ClientOk(s, c, s.clients[c]);
        CanEnrol(s, row, c);
      } else {
        var e := Registers(c, true, true);
        var u := Next(s, e);
        CanEnrol(u, row, c);
        var t :| Leads(u, t) && row in t.enrolments;
        LeadsStep(s, e, t);
      }
    }
    forall t | Leads(s, t) && row in t.enrolments
      ensures row in s.enrolments || exists c :: AboutToEnrol(s, row, c)
    {
      var run :| IsRun(s, run) && After(s, run) == t;
      AboutAlong(s, run, row);
    }
  }
}
