/** A database session with at most one open transaction: a committed state and, while the
    transaction is open, a working copy of it. Any call may fail or panic for reasons of its own,
    unless the session is `reliable`. */
module Sessions {
  import opened Text

  datatype Executed = Done | Failed | Panicked

  datatype Error = BeginFailed | StatementFailed | InvalidData | Unsupported | CommitFailed

  /** How a call ended: with a nil error, with an error, or with a panic passed on. */
  datatype Outcome = Ok | Err(error: Error) | Panic

  class Session<T, S> {
    var committed: T
    var working: Option<T>
    var begun: nat
    var ended: nat
    /** What a statement does to a state; None where the server refuses it. */
    const effect: (T, S) -> Option<T>
    const reliable: bool

    constructor (committed: T, effect: (T, S) -> Option<T>, reliable: bool)
      ensures this.committed == committed && this.effect == effect && this.reliable == reliable
      ensures working.None? && begun == ended == 0
    {
      this.committed, this.effect, this.reliable := committed, effect, reliable;
      working, begun, ended := None, 0, 0;
    }

    method Begin() returns (ok: bool)
      requires working.None?
      modifies this
      ensures committed == old(committed) && ended == old(ended)
      ensures if ok then working == Some(committed) && begun == old(begun) + 1 else working.None? && begun == old(begun)
      ensures reliable ==> ok
    {
      ok := *;
      ok := ok || reliable;
      if ok {
        working, begun := Some(committed), begun + 1;
      }
    }

    method Exec(s: S) returns (r: Executed)
      requires working.Some?
      modifies this
      ensures committed == old(committed) && begun == old(begun) && ended == old(ended)
      ensures r.Done? ==> effect(old(working).value, s).Some? && working == effect(old(working).value, s)
      ensures !r.Done? ==> working == old(working)
      ensures reliable ==> r == if effect(old(working).value, s).Some? then Done else Failed
    {
      var next := effect(working.value, s);
      r := *;
      if reliable {
        r := Done;
      }
      if r.Done? {
        if next.None? {
          r := Failed;
        } else {
          working := next;
        }
      }
    }

    method Rollback()
      requires working.Some?
      modifies this
      ensures working.None? && committed == old(committed) && begun == old(begun) && ended == old(ended) + 1
    {
      working, ended := None, ended + 1;
    }

    /** A commit that reports an error may still have taken effect on the server. */
    method Commit() returns (ok: bool)
      requires working.Some?
      modifies this
      ensures working.None? && begun == old(begun) && ended == old(ended) + 1
      ensures committed == old(working).value || (!ok && committed == old(committed))
      ensures reliable ==> ok
    {
      ok := *;
      ok := ok || reliable;
      var applied: bool := *;
      if ok || applied {
        committed := working.value;
      }
      working, ended := None, ended + 1;
    }
  }

  /** What running statements in order comes to; None if the server refuses one of them. */
  function RunAll<T, S>(effect: (T, S) -> Option<T>, t: T, ss: seq<S>): Option<T> {
    if ss == [] then Some(t)
    else match effect(t, ss[0])
      case Some(u) => RunAll(effect, u, ss[1..])
      case None => None
  }

  lemma {:induction false} RunAllConcat<T, S>(effect: (T, S) -> Option<T>, t: T, a: seq<S>, b: seq<S>)
    ensures RunAll(effect, t, a + b)
         == if RunAll(effect, t, a).Some? then RunAll(effect, RunAll(effect, t, a).value, b) else None
  {
    if a == [] {
      assert a + b == b;
    } else {
      assert (a + b)[1..] == a[1..] + b;
      if effect(t, a[0]).Some? {
        RunAllConcat(effect, effect(t, a[0]).value, a[1..], b);
      }
    }
  }

  lemma RunAllSnoc<T, S>(effect: (T, S) -> Option<T>, t: T, ss: seq<S>, s: S)
    ensures RunAll(effect, t, ss + [s])
         == if RunAll(effect, t, ss).Some? then effect(RunAll(effect, t, ss).value, s) else None
  {
    RunAllConcat(effect, t, ss, [s]);
    assert [s][1..] == [];
    if RunAll(effect, t, ss).Some? {
      var u := RunAll(effect, t, ss).value;
      assert RunAll(effect, u, [s]) == effect(u, s);
    }
  }

  /** A refused statement refuses the whole list. */
  lemma RunAllRefused<T, S>(effect: (T, S) -> Option<T>, t: T, ss: seq<S>, i: nat)
    requires i <= |ss| && RunAll(effect, t, ss[..i]).None?
    ensures RunAll(effect, t, ss).None?
  {
    assert ss[..i] + ss[i..] == ss;
    RunAllConcat(effect, t, ss[..i], ss[i..]);
  }
}

/** `BulkUpdate`: many write operations in one transaction. */
module BulkWrites {
  import opened Text
  import opened Sessions

  type Record = map<string, string>
  type Filter = map<string, string>
  type Table = seq<Record>

  /** An update goes through JSON, which not every value survives. */
  datatype Change = Fields(data: Record) | Unmappable

  datatype Model = Model(operation: string, filter: Filter, document: Option<Record>, update: Option<Change>)

  datatype Statement =
    | Create(document: Record)
    | Updates(filter: Filter, data: Record)
    | Replace(filter: Filter, document: Record)
    | Delete(filter: Filter)

  /** What an operation asks of the database. */
  datatype Step = Run(statement: Statement) | Skip | Refused

  /** Refused are an operation of another name, an insert of nothing, and an update that cannot be
      converted. An update with neither an update nor a document asks for nothing. */
  function StepOf(m: Model): Step {
    if m.operation == "insert" then
      if m.document.Some? then Run(Create(m.document.value)) else Refused
    else if m.operation == "update" then
      if m.update.Some? then
        if m.update.value.Fields? then Run(Updates(m.filter, m.update.value.data)) else Refused
      else if m.document.Some? then Run(Replace(m.filter, m.document.value))
      else Skip
    else if m.operation == "delete" then Run(Delete(m.filter))
    else Refused
  }

  /** The table after a list of operations, or None when one of them, or its statement, is refused. */
  function Result<T>(effect: (T, Statement) -> Option<T>, t: T, models: seq<Model>): Option<T>
    decreases |models|
  {
    if models == [] then Some(t)
    else match StepOf(models[0])
      case Refused => None
      case Skip => Result(effect, t, models[1..])
      case Run(s) =>
        match effect(t, s)
        case Some(u) => Result(effect, u, models[1..])
        case None => None
  }

  function Statements(models: seq<Model>): seq<Statement> {
    if models == [] then []
    else (if StepOf(models[0]).Run? then [StepOf(models[0]).statement] else []) + Statements(models[1..])
  }

  /** So a list comes to its statements in order, unless one of its operations is refused. */
  lemma {:induction false} ResultIsRun<T>(effect: (T, Statement) -> Option<T>, t: T, models: seq<Model>)
    ensures Result(effect, t, models)
         == if forall m <- models :: !StepOf(m).Refused? then RunAll(effect, t, Statements(models)) else None
    decreases |models|
  {
    if models != [] {
      var m, rest := models[0], models[1..];
      assert models == [m] + rest;
      match StepOf(m)
      case Refused => assert m in models;
      case Skip =>
        ResultIsRun(effect, t, rest);
        assert Statements(models) == Statements(rest);
      case Run(s) =>
        assert Statements(models)[0] == s && Statements(models)[1..] == Statements(rest);
        if effect(t, s).Some? {
          ResultIsRun(effect, effect(t, s).value, rest);
        }
    }
  }

  lemma ResultOfOne<T>(effect: (T, Statement) -> Option<T>, t: T, m: Model)
    ensures Result(effect, t, [m])
         == match StepOf(m)
            case Refused => None
            case Skip => Some(t)
            case Run(s) => effect(t, s)
  {
    var one := [m];
    assert one[1..] == [];
  }

  /** What one operation comes to, by its name and what it was given. */
  lemma InsertMeans<T>(effect: (T, Statement) -> Option<T>, t: T, m: Model)
    requires m.operation == "insert"
    ensures m.document.Some? ==> Result(effect, t, [m]) == effect(t, Create(m.document.value))
    ensures m.document.None? ==> Result(effect, t, [m]) == None
  {
    ResultOfOne(effect, t, m);
  }

  lemma UpdateMeans<T>(effect: (T, Statement) -> Option<T>, t: T, m: Model)
    requires m.operation == "update"
    ensures m.update.Some? && m.update.value.Fields? ==>
      Result(effect, t, [m]) == effect(t, Updates(m.filter, m.update.value.data))
    ensures m.update == Some(Unmappable) ==> Result(effect, t, [m]) == None
    ensures m.update.None? && m.document.Some? ==>
      Result(effect, t, [m]) == effect(t, Replace(m.filter, m.document.value))
    ensures m.update.None? && m.document.None? ==> Result(effect, t, [m]) == Some(t)
  {
    ResultOfOne(effect, t, m);
  }

  lemma DeleteMeans<T>(effect: (T, Statement) -> Option<T>, t: T, m: Model)
    requires m.operation == "delete"
    ensures Result(effect, t, [m]) == effect(t, Delete(m.filter))
  {
    ResultOfOne(effect, t, m);
  }

  lemma OtherRefused<T>(effect: (T, Statement) -> Option<T>, t: T, m: Model)
    requires m.operation != "insert" && m.operation != "update" && m.operation != "delete"
    ensures Result(effect, t, [m]) == None
  {
    ResultOfOne(effect, t, m);
  }

  /** One bulk update of two lists comes to the two bulk updates after each other. */
  lemma {:induction false} ResultConcat<T>(effect: (T, Statement) -> Option<T>, t: T, a: seq<Model>, b: seq<Model>)
    ensures Result(effect, t, a + b)
         == if Result(effect, t, a).Some? then Result(effect, Result(effect, t, a).value, b) else None
    decreases |a|
  {
    if a == [] {
      assert a + b == b;
    } else {
      assert (a + b)[1..] == a[1..] + b;
      match StepOf(a[0])
      case Refused =>
      case Skip => ResultConcat(effect, t, a[1..], b);
      case Run(s) =>
        if effect(t, s).Some? {
          ResultConcat(effect, effect(t, s).value, a[1..], b);
        }
    }
  }

  lemma ResultSnoc<T>(effect: (T, Statement) -> Option<T>, t: T, models: seq<Model>, i: nat)
    requires i < |models|
    ensures Result(effect, t, models[..i + 1])
         == if Result(effect, t, models[..i]).Some?
           then Result(effect, Result(effect, t, models[..i]).value, [models[i]]) else None
  {
    assert models[..i + 1] == models[..i] + [models[i]];
    ResultConcat(effect, t, models[..i], [models[i]]);
  }

  /** A refused operation refuses the whole list. */
  lemma RefusedAt<T>(effect: (T, Statement) -> Option<T>, t: T, models: seq<Model>, i: nat)
    requires i < |models| && Result(effect, t, models[..i + 1]).None?
    ensures Result(effect, t, models).None?
  {
    assert models[..i + 1] + models[i + 1..] == models;
    ResultConcat(effect, t, models[..i + 1], models[i + 1..]);
  }

  // ---- how the ORM builds a condition -----------------------------------------------------------

  /** What a condition can be given as: a map of the built-in type, or of a type of its own. */
  datatype Argument = Entries(entries: Filter) | Named(entries: Filter)

  datatype Condition = Equal(column: string, value: string) | PrimaryKey(key: Filter)

  /** A map of the built-in type compares its columns; any other is taken for a primary key. */
  function BuildCondition(a: Argument): set<Condition> {
    match a
    case Entries(m) => set f | f in m :: Equal(f, m[f])
    case Named(m) => {PrimaryKey(m)}
  }

  /** A primary key has no column to go to unless the statement knows a schema. */
  predicate Buildable(conditions: set<Condition>, schema: bool) {
    schema || forall c <- conditions :: !c.PrimaryKey?
  }

  /** The filter of a bulk operation is of type DbQuery. An update by a map and a deletion have no
      schema; an update with nothing to set is not even built. */
  function OrmEffect<T>(server: (T, Statement) -> Option<T>): (T, Statement) -> Option<T> {
    (t: T, s: Statement) =>
      match s
      case Create(_) => server(t, s)
      case Replace(_, _) => server(t, s)
      case Updates(filter, data) =>
        if data == map[] then Some(t)
        else if Buildable(BuildCondition(Named(filter)), false) then server(t, s)
        else None
      case Delete(filter) => if Buildable(BuildCondition(Named(filter)), false) then server(t, s) else None
  }

  lemma NamedRefused(filter: Filter)
    ensures !Buildable(BuildCondition(Named(filter)), false) && Buildable(BuildCondition(Entries(filter)), false)
  {
    assert PrimaryKey(filter) in BuildCondition(Named(filter));
  }

  /** What the ORM makes of each statement: inserts and document updates are the server's affair, an
      update with nothing to set does nothing, and all that has a filter to build is refused. */
  lemma OrmStatements<T>(server: (T, Statement) -> Option<T>, t: T, filter: Filter, data: Record)
    ensures OrmEffect(server)(t, Create(data)) == server(t, Create(data))
    ensures OrmEffect(server)(t, Replace(filter, data)) == server(t, Replace(filter, data))
    ensures OrmEffect(server)(t, Updates(filter, map[])) == Some(t)
    ensures data != map[] ==> OrmEffect(server)(t, Updates(filter, data)) == None
    ensures OrmEffect(server)(t, Delete(filter)) == None
  {
    NamedRefused(filter);
  }

  /** A deletion, or an update with something to set. */
  predicate Filtered(s: Statement) {
    s.Delete? || (s.Updates? && s.data != map[])
  }

  /** Whatever the server would do, the ORM refuses every list with a deletion or an update that has
      something to set; the rest is decided by the inserts and the document updates. */
  lemma {:induction false} FiltersRefused<T>(server: (T, Statement) -> Option<T>, t: T, models: seq<Model>)
    requires Result(OrmEffect(server), t, models).Some?
    ensures forall m <- models :: StepOf(m).Run? ==> !Filtered(StepOf(m).statement)
    decreases |models|
  {
    if models != [] {
      assert models == [models[0]] + models[1..];
      if StepOf(models[0]).Run? {
        var s := StepOf(models[0]).statement;
        if !s.Create? {
          NamedRefused(s.filter);
        }
        FiltersRefused(server, OrmEffect(server)(t, s).value, models[1..]);
      } else {
        FiltersRefused(server, t, models[1..]);
      }
    }
  }

  // ---- a table that takes every statement ---------------------------------------------------

  /** Which rows a filter selects is left open. */
  type Matching = (Filter, Record) -> bool

  function Updated(matches: Matching, t: Table, filter: Filter, data: Record): Table {
    seq(|t|, i requires 0 <= i < |t| => if matches(filter, t[i]) then t[i] + data else t[i])
  }

  function Kept(matches: Matching, t: Table, filter: Filter): Table {
    if t == [] then []
    else (if matches(filter, t[0]) then [] else [t[0]]) + Kept(matches, t[1..], filter)
  }

  function Apply(matches: Matching, t: Table, s: Statement): Table {
    match s
    case Create(document) => t + [document]
    case Updates(filter, data) => Updated(matches, t, filter, data)
    case Replace(filter, document) => Updated(matches, t, filter, document)
    case Delete(filter) => Kept(matches, t, filter)
  }

  function Effect(matches: Matching): (Table, Statement) -> Option<Table> {
    (t: Table, s: Statement) => Some(Apply(matches, t, s))
  }

  /** Deleting keeps exactly the rows that do not match, in their order. */
  lemma {:induction false} KeptRows(matches: Matching, t: Table, filter: Filter)
    ensures forall r <- Kept(matches, t, filter) :: r in t && !matches(filter, r)
    ensures multiset(Kept(matches, t, filter)) <= multiset(t)
    ensures forall r :: !matches(filter, r) ==> multiset(Kept(matches, t, filter))[r] == multiset(t)[r]
  {
    if t != [] {
      KeptRows(matches, t[1..], filter);
      assert t == [t[0]] + t[1..];
    }
  }

  /** An update sets its fields in the rows that match and leaves everything else as it was. */
  lemma UpdatedRows(matches: Matching, t: Table, filter: Filter, data: Record, i: nat)
    requires i < |t|
    ensures |Updated(matches, t, filter, data)| == |t|
    ensures var r := Updated(matches, t, filter, data)[i];
      if matches(filter, t[i]) then
        && r.Keys == t[i].Keys + data.Keys
        && (forall f <- data :: r[f] == data[f])
        && (forall f <- t[i] | f !in data :: r[f] == t[i][f])
      else r == t[i]
  {
  }

  /** What the statements do to such a table. */
  lemma TableStatements(matches: Matching, t: Table, filter: Filter, data: Record)
    ensures Effect(matches)(t, Create(data)) == Some(t + [data])
    ensures Effect(matches)(t, Updates(filter, data)) == Some(Updated(matches, t, filter, data))
    ensures Effect(matches)(t, Replace(filter, data)) == Some(Updated(matches, t, filter, data))
    ensures Effect(matches)(t, Delete(filter)) == Some(Kept(matches, t, filter))
  {
  }

  /** On such a table only the operations themselves can be refused. */
  lemma {:induction false} TableResult(matches: Matching, t: Table, models: seq<Model>)
    ensures Result(Effect(matches), t, models).Some? <==> forall m <- models :: !StepOf(m).Refused?
    decreases |models|
  {
    if models != [] {
      assert models == [models[0]] + models[1..];
      var u := if StepOf(models[0]).Run? then Apply(matches, t, StepOf(models[0]).statement) else t;
      TableResult(matches, u, models[1..]);
    }
  }

  predicate UnknownName(m: Model) {
    m.operation != "insert" && m.operation != "update" && m.operation != "delete"
  }

  predicate UnmappableUpdate(m: Model) {
    m.operation == "update" && m.update == Some(Unmappable)
  }

  /** All operations before this one could be done. */
  predicate Reached<T>(effect: (T, Statement) -> Option<T>, t: T, models: seq<Model>, i: int) {
    0 <= i < |models| && Result(effect, t, models[..i]).Some?
  }

  method BulkUpdate<T>(db: Session<T, Statement>, models: seq<Model>) returns (o: Outcome)
    requires db.working.None?
    modifies db
    ensures db.working.None?
    ensures db.begun - old(db.begun) == db.ended - old(db.ended) == if o == Err(BeginFailed) then 0 else 1
    ensures o.Ok? ==> Result(db.effect, old(db.committed), models) == Some(db.committed)
    ensures o == Err(CommitFailed) ==>
      db.committed == old(db.committed) || Result(db.effect, old(db.committed), models) == Some(db.committed)
    ensures !o.Ok? && o != Err(CommitFailed) ==> db.committed == old(db.committed)
    ensures o == Err(Unsupported) || o == Err(InvalidData) ==> Result(db.effect, old(db.committed), models).None?
    ensures o == Err(Unsupported) ==>
      exists i :: Reached(db.effect, old(db.committed), models, i) && UnknownName(models[i])
    ensures o == Err(InvalidData) ==>
      exists i :: Reached(db.effect, old(db.committed), models, i) && UnmappableUpdate(models[i])
    ensures db.reliable && o == Err(StatementFailed) ==>
      exists i :: Reached(db.effect, old(db.committed), models, i)
        && Result(db.effect, old(db.committed), models[..i + 1]).None?
        && !UnknownName(models[i]) && !UnmappableUpdate(models[i])
    ensures db.reliable ==> o.Ok? || o == Err(Unsupported) || o == Err(InvalidData) || o == Err(StatementFailed)
    ensures db.reliable ==> (o.Ok? <==> Result(db.effect, old(db.committed), models).Some?)
  {
    var ok := db.Begin();
    if !ok {
      return Err(BeginFailed);
    }
    ghost var t0 := db.committed;
    var i := 0;
    while i < |models|
      invariant i <= |models|
      invariant db.working.Some? && db.committed == t0 == old(db.committed) && db.ended == old(db.ended)
      invariant db.begun == old(db.begun) + 1
      invariant Result(db.effect, t0, models[..i]) == db.working
    {
      var m := models[i];
      ResultSnoc(db.effect, t0, models, i);
      ghost var t := db.working.value;
      assert Reached(db.effect, t0, models, i);
      assert [m][1..] == [];
      var r: Executed;
      if m.operation == "insert" {
        if m.document.Some? {
          r := db.Exec(Create(m.document.value));
        } else {
          r := Failed;
        }
      } else if m.operation == "update" {
        if m.update.Some? {
          if m.update.value.Unmappable? {
            RefusedAt(db.effect, t0, models, i);
            db.Rollback();
            return Err(InvalidData);
          }
          r := db.Exec(Updates(m.filter, m.update.value.data));
        } else if m.document.Some? {
          r := db.Exec(Replace(m.filter, m.document.value));
        } else {
          r := Done;
        }
      } else if m.operation == "delete" {
        r := db.Exec(Delete(m.filter));
      } else {
        RefusedAt(db.effect, t0, models, i);
        db.Rollback();
        return Err(Unsupported);
      }
      if !r.Done? && db.reliable {
        RefusedAt(db.effect, t0, models, i);
      }
      if r.Panicked? {
        db.Rollback();
        return Panic;
      }
      if r.Failed? {
        db.Rollback();
        return Err(StatementFailed);
      }
      i := i + 1;
    }
    assert models[..i] == models;
    ok := db.Commit();
    o := if ok then Ok else Err(CommitFailed);
  }
}
