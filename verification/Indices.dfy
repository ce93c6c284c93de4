/** `EnsureIndices` and `DropIndices`: index statements run as text, in one transaction each. */
module Indices {
  import opened Text
  import opened Sessions
  import opened IndexText

  /** The indexes of a database by name, each with its table. */
  type Catalogue = map<string, (string, DbIndex)>

  const NO_TIMEOUT := "SET LOCAL statement_timeout = 0"
  const DROP := "DROP INDEX IF EXISTS "

  /** What the server does with a statement; a name that is taken is refused, and so is anything
      that is none of the three statements. */
  function RunSql(cat: Catalogue, text: string): Option<Catalogue> {
    if text == NO_TIMEOUT then Some(cat)
    else match Strip(text, DROP)
      case Some(name) => Some(cat - {name})
      case None =>
        match Parse(text)
        case Some((table, d)) => if d.name in cat then None else Some(cat[d.name := (table, d)])
        case None => None
  }

  function Server(): (Catalogue, string) -> Option<Catalogue> {
    (cat: Catalogue, text: string) => RunSql(cat, text)
  }

  function Creates(table: string, indices: seq<DbIndex>): seq<string> {
    seq(|indices|, i requires 0 <= i < |indices| => Print(table, indices[i]))
  }

  function DropOne(index: DbIndex): seq<string> {
    (if index.concurrent then [NO_TIMEOUT] else []) + [DROP + index.name]
  }

  function Drops(indices: seq<DbIndex>): seq<string> {
    if indices == [] then [] else DropOne(indices[0]) + Drops(indices[1..])
  }

  lemma TakeOneMore<T>(s: seq<T>, i: nat)
    requires i < |s|
    ensures s[..i + 1] == s[..i] + [s[i]]
  {
  }

  lemma {:induction false} DropsConcat(a: seq<DbIndex>, b: seq<DbIndex>)
    ensures Drops(a + b) == Drops(a) + Drops(b)
  {
    if a == [] {
      assert a + b == b;
    } else {
      assert (a + b)[1..] == a[1..] + b;
      DropsConcat(a[1..], b);
    }
  }

  lemma DropsSplit(indices: seq<DbIndex>, i: nat)
    requires i < |indices|
    ensures Drops(indices) == Drops(indices[..i]) + DropOne(indices[i]) + Drops(indices[i + 1..])
  {
    CutAround(indices, i);
    DropsConcat(indices[..i], indices[i..]);
    DropsFirst(indices[i..]);
    Regroup(Drops(indices[..i]), DropOne(indices[i]), Drops(indices[i + 1..]));
  }

  lemma CutAround<T>(s: seq<T>, i: nat)
    requires i < |s|
    ensures s == s[..i] + s[i..] && s[i..][0] == s[i] && s[i..][1..] == s[i + 1..]
  {
  }

  lemma DropsFirst(indices: seq<DbIndex>)
    requires indices != []
    ensures Drops(indices) == DropOne(indices[0]) + Drops(indices[1..])
  {
  }

  lemma Regroup<T>(a: seq<T>, b: seq<T>, c: seq<T>)
    ensures a + (b + c) == a + b + c
  {
  }

  lemma TakeParts<T>(a: seq<T>, b: seq<T>, c: seq<T>)
    ensures (a + b + c)[..|a|] == a && (a + b + c)[..|a + b|] == a + b
    ensures forall k :: 0 <= k < |b| ==> (a + b + c)[|a| + k] == b[k]
  {
  }

  /** Where the statements of one index are in those of the list. */
  lemma DropsAt(indices: seq<DbIndex>, i: nat)
    requires i < |indices|
    ensures var all, k := Drops(indices), |Drops(indices[..i])|;
      && k + |DropOne(indices[i])| <= |all|
      && all[..k] == Drops(indices[..i])
      && all[..k + |DropOne(indices[i])|] == Drops(indices[..i + 1])
      && forall j :: 0 <= j < |DropOne(indices[i])| ==> all[k + j] == DropOne(indices[i])[j]
  {
    var before, one := Drops(indices[..i]), DropOne(indices[i]);
    DropsSplit(indices, i);
    TakeParts(before, one, Drops(indices[i + 1..]));
    TakeOneMore(indices, i);
    DropsConcat(indices[..i], [indices[i]]);
    DropsOfOne(indices[i]);
  }

  lemma DropLast(index: DbIndex)
    ensures var one := DropOne(index);
      && one[|one| - 1] == DROP + index.name && one[|one| - 1] != NO_TIMEOUT
      && (index.concurrent <==> |one| > 1) && (index.concurrent ==> one[|one| - 2] == NO_TIMEOUT)
  {
    assert (DROP + index.name)[0] == 'D' && NO_TIMEOUT[0] == 'S';
  }

  lemma LastOfDrops(indices: seq<DbIndex>)
    ensures var all := Drops(indices); all == [] || all[|all| - 1] != NO_TIMEOUT
  {
    if indices != [] {
      var n := |indices| - 1;
      assert indices == indices[..n] + [indices[n]];
      DropsConcat(indices[..n], [indices[n]]);
      DropsOfOne(indices[n]);
      DropLast(indices[n]);
    }
  }

  /** One index is dropped by name, and without the statement timeout if it is concurrent: then, and
      only then, the statement directly before is the one that lifts it. */
  lemma DropAt(indices: seq<DbIndex>, i: nat) returns (k: nat)
    requires i < |indices|
    ensures k < |Drops(indices)| && Drops(indices)[k] == "DROP INDEX IF EXISTS " + indices[i].name
    ensures indices[i].concurrent <==> k > 0 && Drops(indices)[k - 1] == "SET LOCAL statement_timeout = 0"
    ensures Drops(indices)[..k + 1] == Drops(indices[..i + 1])
  {
    DropsAt(indices, i);
    k := |Drops(indices[..i])| + |DropOne(indices[i])| - 1;
    DropLast(indices[i]);
    LastOfDrops(indices[..i]);
  }

  lemma DropsOfOne(index: DbIndex)
    ensures Drops([index]) == DropOne(index)
  {
    var one := [index];
    assert one[1..] == [];
    assert DropOne(index) + [] == DropOne(index);
  }

  /** How one transaction over a list of statements can end. */
  twostate predicate AllOrNothing(db: Session<Catalogue, string>, o: Outcome, statements: seq<string>)
    reads db
  {
    && db.working.None?
    && db.begun - old(db.begun) == db.ended - old(db.ended) == (if o == Err(BeginFailed) then 0 else 1)
    && (o.Ok? ==> RunAll(db.effect, old(db.committed), statements) == Some(db.committed))
    && (o == Err(CommitFailed) ==>
          db.committed == old(db.committed) || RunAll(db.effect, old(db.committed), statements) == Some(db.committed))
    && (!o.Ok? && o != Err(CommitFailed) ==> db.committed == old(db.committed))
    && (db.reliable ==> (o.Ok? <==> RunAll(db.effect, old(db.committed), statements).Some?))
  }

  /** The next statement of a list, in a transaction that has done those before it; the transaction
      is rolled back if it fails or panics. */
  method ExecNext(db: Session<Catalogue, string>, stmt: string, ghost c0: Catalogue, ghost all: seq<string>,
                  ghost k: nat)
    returns (o: Outcome)
    requires db.working.Some? && k < |all| && all[k] == stmt
    requires RunAll(db.effect, c0, all[..k]) == db.working
    modifies db
    ensures db.committed == old(db.committed) && db.begun == old(db.begun)
    ensures db.working.Some? <==> o.Ok?
    ensures db.ended == old(db.ended) + if o.Ok? then 0 else 1
    ensures o.Ok? ==> RunAll(db.effect, c0, all[..k + 1]) == db.working
    ensures !o.Ok? ==> (o == Panic || o == Err(StatementFailed)) && (db.reliable ==> RunAll(db.effect, c0, all).None?)
  {
    RunAllSnoc(db.effect, c0, all[..k], stmt);
    TakeOneMore(all, k);
    var r := db.Exec(stmt);
    if !r.Done? && db.reliable {
      RunAllRefused(db.effect, c0, all, k + 1);
    }
    if r.Done? {
      return Ok;
    }
    db.Rollback();
    o := if r.Panicked? then Panic else Err(StatementFailed);
  }

  method EnsureIndices(db: Session<Catalogue, string>, table: string, indices: seq<DbIndex>) returns (o: Outcome)
    requires db.working.None?
    modifies db
    ensures AllOrNothing(db, o, Creates(table, indices))
  {
    var ok := db.Begin();
    if !ok {
      return Err(BeginFailed);
    }
    ghost var c0, all := db.committed, Creates(table, indices);
    for i := 0 to |indices|
      invariant db.working.Some? && db.committed == c0 == old(db.committed)
      invariant db.ended == old(db.ended) && db.begun == old(db.begun) + 1
      invariant RunAll(db.effect, c0, all[..i]) == db.working
    {
      var stmt := BuildStatement(table, indices[i]);
      o := ExecNext(db, stmt, c0, all, i);
      if !o.Ok? {
        return;
      }
    }
    assert all[..|indices|] == all;
    ok := db.Commit();
    o := if ok then Ok else Err(CommitFailed);
  }

  method DropIndex(db: Session<Catalogue, string>, ghost c0: Catalogue, indices: seq<DbIndex>, i: nat)
    returns (o: Outcome)
    requires db.working.Some? && i < |indices|
    requires RunAll(db.effect, c0, Drops(indices[..i])) == db.working
    modifies db
    ensures db.committed == old(db.committed) && db.begun == old(db.begun)
    ensures db.working.Some? <==> o.Ok?
    ensures db.ended == old(db.ended) + if o.Ok? then 0 else 1
    ensures o.Ok? ==> RunAll(db.effect, c0, Drops(indices[..i + 1])) == db.working
    ensures !o.Ok? ==>
      (o == Panic || o == Err(StatementFailed)) && (db.reliable ==> RunAll(db.effect, c0, Drops(indices)).None?)
  {
    ghost var all, k := Drops(indices), |Drops(indices[..i])|;
    DropsAt(indices, i);
    if indices[i].concurrent {
      assert all[k] == DropOne(indices[i])[0];
      o := ExecNext(db, NO_TIMEOUT, c0, all, k);
      if !o.Ok? {
        return;
      }
      k := k + 1;
      assert all[k] == DropOne(indices[i])[1];
    } else {
      assert all[k] == DropOne(indices[i])[0];
    }
    o := ExecNext(db, DROP + indices[i].name, c0, all, k);
  }

  method DropIndices(db: Session<Catalogue, string>, indices: seq<DbIndex>) returns (o: Outcome)
    requires db.working.None?
    modifies db
    ensures AllOrNothing(db, o, Drops(indices))
  {
    var ok := db.Begin();
    if !ok {
      return Err(BeginFailed);
    }
    ghost var c0 := db.committed;
    for i := 0 to |indices|
      invariant db.working.Some? && db.committed == c0 == old(db.committed)
      invariant db.ended == old(db.ended) && db.begun == old(db.begun) + 1
      invariant RunAll(db.effect, c0, Drops(indices[..i])) == db.working
    {
      o := DropIndex(db, c0, indices, i);
      if !o.Ok? {
        return;
      }
    }
    assert indices[..|indices|] == indices;
    ok := db.Commit();
    o := if ok then Ok else Err(CommitFailed);
  }

  // ---- what the two come to -----------------------------------------------------------------

  function Names(indices: seq<DbIndex>): set<string> {
    set d | d in indices :: d.name
  }

  predicate FreshNames(cat: Catalogue, indices: seq<DbIndex>) {
    && (forall d <- indices :: d.name !in cat)
    && (forall i, j :: 0 <= i < j < |indices| ==> indices[i].name != indices[j].name)
  }

  /** The entries a list of statements stands for. */
  function Definitions(table: string, indices: seq<DbIndex>): Catalogue {
    if indices == [] then map[]
    else map[indices[0].name := (table, Canonical(indices[0]))] + Definitions(table, indices[1..])
  }

  predicate AllWellFormed(table: string, indices: seq<DbIndex>) {
    forall d <- indices :: WellFormed(table, d)
  }

  lemma CreateNotOther(table: string, d: DbIndex)
    ensures Print(table, d) != NO_TIMEOUT && Strip(Print(table, d), DROP).None?
  {
    assert Print(table, d)[0] == 'C' && NO_TIMEOUT[0] == 'S' && DROP[0] == 'D';
  }

  /** `after` is `before` with entries under `names`, none of which was taken. */
  predicate Adds(before: Catalogue, after: Catalogue, names: set<string>) {
    names !! before.Keys && after.Keys == before.Keys + names && forall n <- before :: after[n] == before[n]
  }

  /** What one CREATE statement does: nothing to a name that is taken, and else it enters the
      definition it reads as. */
  ghost predicate CreatesAs(effect: (Catalogue, string) -> Option<Catalogue>, table: string, d: DbIndex) {
    forall c: Catalogue ::
      effect(c, Print(table, d)) == if d.name in c then None else Some(c[d.name := (table, Canonical(d))])
  }

  lemma RunSqlOf(cat: Catalogue, text: string, table: string, d: DbIndex)
    requires text != NO_TIMEOUT && Strip(text, DROP).None? && Parse(text) == Some((table, d))
    ensures Server()(cat, text) == if d.name in cat then None else Some(cat[d.name := (table, d)])
  {
  }

  lemma CanonicalName(d: DbIndex)
    ensures Canonical(d).name == d.name
  {
  }

  lemma ServerCreates(table: string, d: DbIndex)
    requires WellFormed(table, d)
    ensures CreatesAs(Server(), table, d)
  {
    RoundTripIff(table, d);
    CreateNotOther(table, d);
    CanonicalName(d);
    var text, read := Print(table, d), Canonical(d);
    forall c: Catalogue
      ensures Server()(c, text) == if d.name in c then None else Some(c[d.name := (table, read)])
    {
      RunSqlOf(c, text, table, read);
    }
  }

  lemma {:induction false} InstallAll(effect: (Catalogue, string) -> Option<Catalogue>, cat: Catalogue,
                                      table: string, indices: seq<DbIndex>)
    requires forall d <- indices :: CreatesAs(effect, table, d)
    ensures RunAll(effect, cat, Creates(table, indices))
         == if FreshNames(cat, indices) then Some(cat + Definitions(table, indices)) else None
    decreases |indices|
  {
    if indices == [] {
      assert cat + map[] == cat;
    } else {
      var d := indices[0];
      assert d in indices && forall e <- indices[1..] :: e in indices;
      assert CreatesAs(effect, table, d);
      assert Creates(table, indices)[1..] == Creates(table, indices[1..]);
      if d.name !in cat {
        var read := (table, Canonical(d));
        var next := cat[d.name := read];
        InstallAll(effect, next, table, indices[1..]);
        FreshCons(cat, indices, next);
        if FreshNames(cat, indices) {
          DefinitionNames(table, indices[1..]);
          NotAgain(indices);
          PutFirst(cat, d.name, read, Definitions(table, indices[1..]));
        }
      }
    }
  }

  lemma PutFirst<K, V>(m: map<K, V>, k: K, v: V, rest: map<K, V>)
    requires k !in rest
    ensures m[k := v] + rest == m + (map[k := v] + rest)
  {
  }

  lemma NotAgain(indices: seq<DbIndex>)
    requires indices != [] && FreshNames(map[], indices)
    ensures indices[0].name !in Names(indices[1..])
  {
    forall e | e in indices[1..] ensures e.name != indices[0].name {
      var j :| 0 <= j < |indices[1..]| && indices[1..][j] == e;
      assert indices[j + 1] == e;
    }
  }

  lemma {:induction false} DefinitionAt(table: string, indices: seq<DbIndex>, d: DbIndex)
    requires FreshNames(map[], indices) && d in indices
    ensures d.name in Definitions(table, indices) && Definitions(table, indices)[d.name] == (table, Canonical(d))
  {
    DefinitionNames(table, indices[1..]);
    NotAgain(indices);
    if d != indices[0] {
      FreshCons(map[], indices, map[indices[0].name := (table, d)]);
      DefinitionAt(table, indices[1..], d);
    }
  }

  /** A list of indexes is created exactly when the names are new and distinct; then the catalogue
      holds what the statements stand for, and a definition as it was asked for exactly unless its
      condition ends like a TABLESPACE clause. */
  lemma CreatesInstall(cat: Catalogue, table: string, indices: seq<DbIndex>)
    requires AllWellFormed(table, indices)
    ensures FreshNames(cat, indices) ==> Definitions(table, indices).Keys == Names(indices)
    ensures FreshNames(cat, indices) ==>
      forall d <- indices :: Definitions(table, indices)[d.name] == (table, d) <==> !EndsLikeTablespace(d)
    ensures RunAll(Server(), cat, Creates(table, indices))
         == if FreshNames(cat, indices) then Some(cat + Definitions(table, indices)) else None
  {
    forall d | d in indices ensures CreatesAs(Server(), table, d) {
      ServerCreates(table, d);
    }
    InstallAll(Server(), cat, table, indices);
    DefinitionNames(table, indices);
    if FreshNames(cat, indices) {
      forall d | d in indices ensures Definitions(table, indices)[d.name] == (table, d) <==> !EndsLikeTablespace(d) {
        DefinitionAt(table, indices, d);
        CanonicalIff(d);
      }
    }
  }

  lemma CanonicalIff(d: DbIndex)
    ensures Canonical(d) == d <==> !EndsLikeTablespace(d)
  {
  }

  lemma FreshCons(cat: Catalogue, indices: seq<DbIndex>, next: Catalogue)
    requires indices != [] && indices[0].name !in cat && next.Keys == cat.Keys + {indices[0].name}
    ensures FreshNames(cat, indices) <==> FreshNames(next, indices[1..])
  {
    assert indices == [indices[0]] + indices[1..];
    if FreshNames(next, indices[1..]) {
      forall i, j | 0 <= i < j < |indices| ensures indices[i].name != indices[j].name {
        assert indices[j] in indices[1..];
        if i > 0 {
          assert indices[1..][i - 1].name != indices[1..][j - 1].name;
        }
      }
    }
    if FreshNames(cat, indices) {
      forall e | e in indices[1..] ensures e.name !in next {
        var j :| 0 <= j < |indices[1..]| && indices[1..][j] == e;
        assert indices[0].name != indices[j + 1].name;
      }
    }
  }

  lemma {:induction false} DefinitionNames(table: string, indices: seq<DbIndex>)
    ensures Definitions(table, indices).Keys == Names(indices)
  {
    if indices != [] {
      DefinitionNames(table, indices[1..]);
      assert indices == [indices[0]] + indices[1..];
    }
  }

  /** Dropping removes exactly the names in the list, there or not. */
  lemma DropsRemove(cat: Catalogue, indices: seq<DbIndex>)
    ensures RunAll(Server(), cat, Drops(indices)) == Some(cat - Names(indices))
  {
    forall c, d ensures RunAll(Server(), c, DropOne(d)) == Some(c - {d.name}) {
      DropOneRemoves(c, d);
    }
    RemoveAll(Server(), cat, indices);
  }

  lemma {:induction false} RemoveAll(effect: (Catalogue, string) -> Option<Catalogue>, cat: Catalogue,
                                     indices: seq<DbIndex>)
    requires forall c, d :: RunAll(effect, c, DropOne(d)) == Some(c - {d.name})
    ensures RunAll(effect, cat, Drops(indices)) == Some(cat - Names(indices))
    decreases |indices|
  {
    if indices == [] {
      assert Names(indices) == {} && cat - {} == cat;
    } else {
      var d := indices[0];
      RunAllConcat(effect, cat, DropOne(d), Drops(indices[1..]));
      assert RunAll(effect, cat, DropOne(d)) == Some(cat - {d.name});
      RemoveAll(effect, cat - {d.name}, indices[1..]);
      NamesCons(indices);
      assert cat - {d.name} - Names(indices[1..]) == cat - Names(indices);
    }
  }

  lemma NamesCons(indices: seq<DbIndex>)
    requires indices != []
    ensures Names(indices) == {indices[0].name} + Names(indices[1..])
  {
    assert indices == [indices[0]] + indices[1..];
  }

  lemma DropOneRemoves(cat: Catalogue, d: DbIndex)
    ensures RunAll(Server(), cat, DropOne(d)) == Some(cat - {d.name})
  {
    var stmt := DROP + d.name;
    DropText(cat, d.name);
    assert Server()(cat, stmt) == Some(cat - {d.name});
    assert Server()(cat, NO_TIMEOUT) == Some(cat);
    RunOne(Server(), cat, stmt);
    if d.concurrent {
      RunOne(Server(), cat, NO_TIMEOUT);
      RunAllConcat(Server(), cat, [NO_TIMEOUT], [stmt]);
    } else {
      assert DropOne(d) == [stmt];
    }
  }

  lemma DropText(cat: Catalogue, name: string)
    ensures RunSql(cat, DROP + name) == Some(cat - {name})
  {
    StripAt(DROP, name);
    assert NO_TIMEOUT[0] == 'S' && (DROP + name)[0] == 'D';
  }

  lemma RunOne(effect: (Catalogue, string) -> Option<Catalogue>, cat: Catalogue, stmt: string)
    ensures RunAll(effect, cat, [stmt]) == effect(cat, stmt)
  {
    var one: seq<string> := [stmt];
    assert one[1..] == [];
  }

  /** Creating a list of indexes and dropping the same list restores the catalogue. */
  lemma CreatesThenDrops(cat: Catalogue, table: string, indices: seq<DbIndex>)
    requires AllWellFormed(table, indices) && RunAll(Server(), cat, Creates(table, indices)).Some?
    ensures RunAll(Server(), RunAll(Server(), cat, Creates(table, indices)).value, Drops(indices)) == Some(cat)
  {
    var created := RunAll(Server(), cat, Creates(table, indices)).value;
    forall d | d in indices ensures CreatesAs(Server(), table, d) {
      ServerCreates(table, d);
    }
    CreatesAdd(Server(), cat, table, indices);
    DropsRemove(created, indices);
    assert created - Names(indices) == cat;
  }

  /** Whatever is created, it is created under the names in the list, and no name was taken. */
  lemma CreatesAdd(effect: (Catalogue, string) -> Option<Catalogue>, cat: Catalogue, table: string,
                   indices: seq<DbIndex>)
    requires forall d <- indices :: CreatesAs(effect, table, d)
    requires RunAll(effect, cat, Creates(table, indices)).Some?
    ensures Adds(cat, RunAll(effect, cat, Creates(table, indices)).value, Names(indices))
  {
    InstallAll(effect, cat, table, indices);
    DefinitionNames(table, indices);
    OverlayAdds(cat, Definitions(table, indices));
  }

  lemma OverlayAdds(cat: Catalogue, more: Catalogue)
    requires more.Keys !! cat.Keys
    ensures Adds(cat, cat + more, more.Keys)
  {
  }

  /** Dropping a list twice comes to dropping it once. */
  lemma DropsTwice(cat: Catalogue, indices: seq<DbIndex>)
    ensures RunAll(Server(), cat, Drops(indices) + Drops(indices)) == RunAll(Server(), cat, Drops(indices))
  {
    RunAllConcat(Server(), cat, Drops(indices), Drops(indices));
    DropsRemove(cat, indices);
    DropsRemove(cat - Names(indices), indices);
    assert cat - Names(indices) - Names(indices) == cat - Names(indices);
  }
}
