/** What the secret store holds and how it answers: a key-value engine mounted at the path the
    repository is configured with. Any request may fail for reasons of its own, unless the
    connection is `reliable`; a failed write has not changed anything. The server holds no other
    engine. */
module VaultEngine {
  import opened Text
  import opened Paths

  /** A stored secret. The repository expects the first form; the others are a secret without
      a "content" text, and one whose data are gone (a deleted version). */
  datatype Secret = Content(text: string) | NoContent | NoData

  type Store = map<Key, Secret>

  datatype Answer<+T> = Unavailable | Missing | Found(value: T)

  /** Whether a listed name is a directory marker. */
  predicate Marker(name: string) {
    name != "" && name[|name| - 1] == '/'
  }

  /** The name under which a listing of `dir` shows `key`. */
  function ChildName(dir: Key, key: Key): string
    requires dir < key
  {
    if |key| == |dir| + 1 then key[|dir|] else key[|dir|] + "/"
  }

  /** What a listing of `dir` shows: its secrets, and a marker for each directory below it. */
  function Children(store: Store, dir: Key): set<string> {
    set key | key in store && dir < key :: ChildName(dir, key)
  }

  function Elements(names: seq<string>): set<string> {
    set n | n in names
  }

  class Vault {
    var store: Store
    const mount: Key
    const reliable: bool

    constructor (mount: Key, reliable: bool, store: Store)
      ensures this.mount == mount && this.reliable == reliable && this.store == store
    {
      this.mount, this.reliable, this.store := mount, reliable, store;
    }

    method Up() returns (up: bool)
      ensures reliable ==> up
    {
      up := *;
      up := up || reliable;
    }

    method LogicalWrite(path: string, text: string) returns (ok: bool)
      modifies this
      ensures ok ==> Route(mount, path).Data? && store == old(store)[Route(mount, path).key := Content(text)]
      ensures !ok ==> store == old(store) && !(reliable && Route(mount, path).Data?)
    {
      var up := Up();
      ok := up && Route(mount, path).Data?;
      if ok {
        store := store[Route(mount, path).key := Content(text)];
      }
    }

    method LogicalRead(path: string) returns (r: Answer<Secret>)
      ensures r.Unavailable? ==> !reliable
      ensures var t := Route(mount, path);
        if t.Data? && t.key in store then r.Unavailable? || r == Found(store[t.key]) else r.Unavailable? || r.Missing?
    {
      var up := Up();
      match Route(mount, path)
      case Data(key) => r := if !up then Unavailable else if key in store then Found(store[key]) else Missing;
      case _ => r := if up then Missing else Unavailable;
    }

    /** The names below a metadata path, in some order; none at all is an absent answer. */
    method LogicalList(path: string) returns (r: Answer<seq<string>>)
      ensures r.Unavailable? ==> !reliable
      ensures r.Missing? ==> !Route(mount, path).Meta? || Children(store, Route(mount, path).key) == {}
      ensures r.Found? ==>
        Route(mount, path).Meta? && r.value != [] && Elements(r.value) == Children(store, Route(mount, path).key)
    {
      var up := Up();
      match Route(mount, path)
      case Meta(dir) =>
        var names, left := [], Children(store, dir);
        while left != {}
          invariant Elements(names) + left == Children(store, dir)
          invariant names == [] ==> left == Children(store, dir)
          decreases |left|
        {
          var n :| n in left;
          names, left := names + [n], left - {n};
        }
        r := if !up then Unavailable else if names == [] then Missing else Found(names);
      case _ => r := if up then Missing else Unavailable;
    }

    method LogicalDelete(path: string) returns (ok: bool)
      modifies this
      ensures ok ==> !Route(mount, path).Other? && store == Deleted(old(store), Route(mount, path))
      ensures var t := Route(mount, path);
        && (ok && t.Meta? ==> store == old(store) - {t.key})
        && (ok && t.Data? ==> store == if t.key in old(store) then old(store)[t.key := NoData] else old(store))
      ensures !ok ==> store == old(store) && !(reliable && !Route(mount, path).Other?)
    {
      var up := Up();
      ok := up && !Route(mount, path).Other?;
      if ok {
        store := Deleted(store, Route(mount, path));
      }
    }
  }

  /** Deleting a metadata path removes the one secret of that name; deleting a data path only
      empties it. Secrets below it stay in either case. */
  function Deleted(store: Store, target: Target): Store {
    match target
    case Meta(key) => store - {key}
    case Data(key) => if key in store then store[key := NoData] else store
    case Other => store
  }
}

/** The directories `fabric-ca-client` leaves behind, as `filepath.Walk` visits them. */
module MspTree {
  import opened Text
  import opened Base64
  import opened Paths

  /** `Broken` is whatever the walk reports an error for: a file that cannot be read, a directory
      that cannot be listed, a path that is not there. */
  datatype Node = File(content: seq<byte>) | Dir(entries: seq<Entry>) | Broken

  datatype Entry = Entry(name: string, node: Node)

  /** Entries have distinct names that a file system allows; their order is the order of the walk. */
  predicate WellFormed(node: Node) {
    node.Dir? ==> EntriesWellFormed(node.entries)
  }

  predicate EntriesWellFormed(es: seq<Entry>) {
    && (forall i, j :: 0 <= i < j < |es| ==> es[i].name != es[j].name)
    && (forall e <- es :: Plain(e.name) && WellFormed(e.node))
  }

  /** A file the walk comes to, by its path from the root; None where it reports an error. */
  datatype Visit = Visit(names: seq<string>, content: Option<seq<byte>>)

  function Visits(node: Node, names: seq<string>): seq<Visit>
    decreases node, 1
  {
    match node
    case File(content) => [Visit(names, Some(content))]
    case Dir(entries) => VisitsAll(entries, names)
    case Broken => [Visit(names, None)]
  }

  function VisitsAll(es: seq<Entry>, names: seq<string>): seq<Visit>
    decreases es, 0
  {
    if es == [] then [] else Visits(es[0].node, names + [es[0].name]) + VisitsAll(es[1..], names)
  }

  /** Whether a path leads to a file of that content, or to a place that cannot be read. */
  predicate LeafAt(node: Node, path: seq<string>, content: Option<seq<byte>>)
    decreases |path|
  {
    if path != [] then
      node.Dir? && exists e <- node.entries :: e.name == path[0] && LeafAt(e.node, path[1..], content)
    else
      match node
      case File(bytes) => content == Some(bytes)
      case Dir(_) => false
      case Broken => content == None
  }

  /** The walk comes to exactly the files there are, at any depth. */
  lemma {:induction false} VisitIff(node: Node, names: seq<string>, path: seq<string>, content: Option<seq<byte>>)
    requires WellFormed(node)
    ensures Visit(names + path, content) in Visits(node, names) <==> LeafAt(node, path, content)
    decreases node, 1
  {
    if node.Dir? {
      VisitAllIff(node.entries, names, path, content);
    } else {
      assert names + path == names <==> path == [];
    }
  }

  lemma {:induction false} VisitAllIff(es: seq<Entry>, names: seq<string>, path: seq<string>,
                                       content: Option<seq<byte>>)
    requires forall e <- es :: Plain(e.name) && WellFormed(e.node)
    ensures Visit(names + path, content) in VisitsAll(es, names) <==>
      path != [] && exists e <- es :: e.name == path[0] && LeafAt(e.node, path[1..], content)
    decreases es, 0
  {
    if es != [] {
      var v, e := Visit(names + path, content), es[0];
      assert es == [e] + es[1..];
      VisitAllIff(es[1..], names, path, content);
      if v in Visits(e.node, names + [e.name]) {
        VisitsBelow(e.node, names + [e.name], v);
        assert v.names[|names|] == e.name;
      }
      if path != [] && path[0] == e.name {
        assert names + path == names + [e.name] + path[1..];
        VisitIff(e.node, names + [e.name], path[1..], content);
      }
    }
  }

  /** In each directory, what is below one entry comes before what is below any later one. */
  ghost predicate Earlier(node: Node, a: seq<string>, b: seq<string>)
    decreases |a|, 1
  {
    node.Dir? && a != [] && b != [] && exists i, j :: EarlierAt(node.entries, a, b, i, j)
  }

  ghost predicate EarlierAt(es: seq<Entry>, a: seq<string>, b: seq<string>, i: int, j: int)
    requires a != [] && b != []
    decreases |a|, 0
  {
    && 0 <= i <= j < |es|
    && es[i].name == a[0]
    && es[j].name == b[0]
    && (i < j || Earlier(es[i].node, a[1..], b[1..]))
  }

  /** The path of a visit from the node the walk of `names` is at. */
  function PathOf(v: Visit, names: seq<string>): seq<string> {
    if |names| <= |v.names| then v.names[|names|..] else []
  }

  lemma PathBelow(v: Visit, names: seq<string>, name: string)
    requires names + [name] <= v.names
    ensures PathOf(v, names) != [] && PathOf(v, names)[0] == name
    ensures PathOf(v, names)[1..] == PathOf(v, names + [name])
  {
  }

  /** The walk keeps to that order, so it comes to nothing twice. */
  lemma {:induction false} VisitsInOrder(node: Node, names: seq<string>, p: nat, q: nat)
    requires WellFormed(node) && p < q < |Visits(node, names)|
    ensures var v := Visits(node, names); Earlier(node, PathOf(v[p], names), PathOf(v[q], names))
    decreases node, 1
  {
    var i, j := EntriesInOrder(node.entries, names, p, q);
  }

  lemma EntryOf(es: seq<Entry>, names: seq<string>, q: nat) returns (j: nat)
    requires q < |VisitsAll(es, names)| && forall e <- es :: Plain(e.name) && WellFormed(e.node)
    ensures j < |es| && names + [es[j].name] <= VisitsAll(es, names)[q].names
    decreases es, 0
  {
    var first := Visits(es[0].node, names + [es[0].name]);
    if q < |first| {
      j := 0;
      VisitsBelow(es[0].node, names + [es[0].name], first[q]);
    } else {
      j := EntryOf(es[1..], names, q - |first|);
      j := j + 1;
    }
  }

  lemma {:induction false} EntriesInOrder(es: seq<Entry>, names: seq<string>, p: nat, q: nat) returns (i: nat, j: nat)
    requires forall e <- es :: Plain(e.name) && WellFormed(e.node)
    requires p < q < |VisitsAll(es, names)|
    ensures InOrder(es, names, p, q, i, j)
    decreases es, 0
  {
    var n := |Visits(es[0].node, names + [es[0].name])|;
    if p >= n {
      i, j := EntriesInOrder(es[1..], names, p - n, q - n);
      LaterInOrder(es, names, p, q, i, j);
      i, j := i + 1, j + 1;
    } else if q < n {
      VisitsInOrder(es[0].node, names + [es[0].name], p, q);
      SameEntry(es, names, p, q);
      i, j := 0, 0;
    } else {
      i := 0;
      j := OtherEntry(es, names, p, q);
    }
  }

  ghost predicate InOrder(es: seq<Entry>, names: seq<string>, p: nat, q: nat, i: nat, j: nat) {
    var v := VisitsAll(es, names);
    && p < |v|
    && q < |v|
    && PathOf(v[p], names) != []
    && PathOf(v[q], names) != []
    && EarlierAt(es, PathOf(v[p], names), PathOf(v[q], names), i, j)
  }

  lemma LaterInOrder(es: seq<Entry>, names: seq<string>, p: nat, q: nat, i: nat, j: nat)
    requires es != []
    requires var n := |Visits(es[0].node, names + [es[0].name])|;
      n <= p < q && InOrder(es[1..], names, p - n, q - n, i, j)
    ensures InOrder(es, names, p, q, i + 1, j + 1)
  {
  }

  lemma SameEntry(es: seq<Entry>, names: seq<string>, p: nat, q: nat)
    requires forall e <- es :: Plain(e.name) && WellFormed(e.node)
    requires es != [] && p < q < |Visits(es[0].node, names + [es[0].name])|
    requires var v, here := Visits(es[0].node, names + [es[0].name]), names + [es[0].name];
      Earlier(es[0].node, PathOf(v[p], here), PathOf(v[q], here))
    ensures InOrder(es, names, p, q, 0, 0)
  {
    var v, here := Visits(es[0].node, names + [es[0].name]), names + [es[0].name];
    assert VisitsAll(es, names)[p] == v[p] && VisitsAll(es, names)[q] == v[q];
    VisitsBelow(es[0].node, here, v[p]);
    VisitsBelow(es[0].node, here, v[q]);
    PathBelow(v[p], names, es[0].name);
    PathBelow(v[q], names, es[0].name);
  }

  lemma OtherEntry(es: seq<Entry>, names: seq<string>, p: nat, q: nat) returns (j: nat)
    requires forall e <- es :: Plain(e.name) && WellFormed(e.node)
    requires es != [] && p < |Visits(es[0].node, names + [es[0].name])| <= q < |VisitsAll(es, names)|
    ensures InOrder(es, names, p, q, 0, j)
  {
    var v, here := Visits(es[0].node, names + [es[0].name]), names + [es[0].name];
    assert VisitsAll(es, names)[p] == v[p];
    assert VisitsAll(es, names)[q] == VisitsAll(es[1..], names)[q - |v|];
    VisitsBelow(es[0].node, here, v[p]);
    PathBelow(v[p], names, es[0].name);
    j := EntryOf(es[1..], names, q - |v|);
    j := j + 1;
    PathBelow(VisitsAll(es, names)[q], names, es[j].name);
  }

  /** The files directly in a directory. */
  function FlatFiles(node: Node): map<string, seq<byte>> {
    if node.Dir? then FlatEntries(node.entries) else map[]
  }

  function FlatEntries(es: seq<Entry>): map<string, seq<byte>> {
    if es == [] then map[]
    else (if es[0].node.File? then map[es[0].name := es[0].node.content] else map[]) + FlatEntries(es[1..])
  }

  /** What an enrolment leaves in its directory. */
  datatype Msp = Msp(revocationKey: Option<seq<byte>>, signcerts: Node, keystore: Node, cacerts: Node)

  lemma {:induction false} VisitsAllConcat(a: seq<Entry>, b: seq<Entry>, names: seq<string>)
    ensures VisitsAll(a + b, names) == VisitsAll(a, names) + VisitsAll(b, names)
  {
    if a == [] {
      assert a + b == b;
    } else {
      assert (a + b)[1..] == a[1..] + b;
      VisitsAllConcat(a[1..], b, names);
    }
  }

  lemma VisitsAllSnoc(es: seq<Entry>, i: nat, names: seq<string>)
    requires i < |es|
    ensures VisitsAll(es[..i + 1], names) == VisitsAll(es[..i], names) + Visits(es[i].node, names + [es[i].name])
  {
    assert es[..i + 1] == es[..i] + [es[i]];
    VisitsAllConcat(es[..i], [es[i]], names);
    assert VisitsAll([es[i]], names) == Visits(es[i].node, names + [es[i].name]);
  }

  /** Every visit below `names` extends them, by ordinary components. */
  lemma {:induction false} VisitsBelow(node: Node, names: seq<string>, v: Visit)
    requires v in Visits(node, names) && WellFormed(node)
    ensures names <= v.names && forall n <- v.names[|names|..] :: Plain(n)
    ensures !node.Dir? ==> v.names == names
    decreases node, 1
  {
    if node.Dir? {
      VisitsAllBelow(node.entries, names, v);
    }
  }

  lemma {:induction false} VisitsAllBelow(es: seq<Entry>, names: seq<string>, v: Visit)
    requires v in VisitsAll(es, names)
    requires forall e <- es :: Plain(e.name) && WellFormed(e.node)
    ensures names < v.names && forall n <- v.names[|names|..] :: Plain(n)
    decreases es, 0
  {
    var e := es[0];
    if v in Visits(e.node, names + [e.name]) {
      VisitsBelow(e.node, names + [e.name], v);
      assert v.names[|names|..] == [e.name] + v.names[|names| + 1..];
    } else {
      VisitsAllBelow(es[1..], names, v);
    }
  }

  lemma {:induction false} FlatNames(es: seq<Entry>, name: string)
    requires name in FlatEntries(es)
    ensures exists e <- es :: e.name == name
  {
    if !(es[0].node.File? && es[0].name == name) {
      FlatNames(es[1..], name);
      var e :| e in es[1..] && e.name == name;
      assert e in es;
    } else {
      assert es[0] in es;
    }
  }
}

/** `repo.Vault`: storing a directory file by file, and reading one directory back. */
module VaultRepository {
  import opened Text
  import opened Base64
  import opened Paths
  import opened VaultEngine
  import opened MspTree

  datatype Error = VaultFailed | NotFound | InvalidFormat | ContentMissing | NoMspData

  datatype Result<+T> = Ok(value: T) | Err(error: Error)

  /** One file to store for a user, by its path below that user. */
  datatype Write = Write(rest: string, content: Option<seq<byte>>)

  function Writes(base: string, visits: seq<Visit>): seq<Write> {
    seq(|visits|, i requires 0 <= i < |visits| => Write(Rest(base, visits[i].names), visits[i].content))
  }

  function FileTarget(kv: string, user: string, rest: string): Target {
    Route(Clean(kv), DataPath(kv, user, rest))
  }

  /** Whether a write can succeed at all: the file was readable and its path names a secret. */
  predicate Storable(kv: string, user: string, w: Write) {
    w.content.Some? && FileTarget(kv, user, w.rest).Data?
  }

  predicate AllStorable(kv: string, user: string, ws: seq<Write>) {
    forall w <- ws :: Storable(kv, user, w)
  }

  function Put(store: Store, kv: string, user: string, w: Write): Store {
    if Storable(kv, user, w) then store[FileTarget(kv, user, w.rest).key := Content(Encode(w.content.value))] else store
  }

  function PutAll(store: Store, kv: string, user: string, ws: seq<Write>): Store
    decreases |ws|
  {
    if ws == [] then store else PutAll(Put(store, kv, user, ws[0]), kv, user, ws[1..])
  }

  /** `after` is `before` with exactly the first `n` files of `ws` written; all of them if the
      operation succeeded, and otherwise those before the one that failed. */
  ghost predicate Landed(v: Vault, kv: string, user: string, before: Store, after: Store, ws: seq<Write>,
                         n: nat, ok: bool) {
    && n <= |ws|
    && AllStorable(kv, user, ws[..n])
    && after == PutAll(before, kv, user, ws[..n])
    && (ok <==> n == |ws|)
    && (!ok && v.reliable ==> !Storable(kv, user, ws[n]))
  }

  lemma {:induction false} PutAllConcat(store: Store, kv: string, user: string, a: seq<Write>, b: seq<Write>)
    ensures PutAll(store, kv, user, a + b) == PutAll(PutAll(store, kv, user, a), kv, user, b)
    decreases |a|
  {
    if a == [] {
      assert a + b == b;
    } else {
      assert (a + b)[1..] == a[1..] + b;
      PutAllConcat(Put(store, kv, user, a[0]), kv, user, a[1..], b);
    }
  }

  lemma LandedThen(v: Vault, kv: string, user: string, s0: Store, s1: Store, s2: Store,
                   ws: seq<Write>, more: seq<Write>, n: nat, ok: bool)
    requires Landed(v, kv, user, s0, s1, ws, |ws|, true)
    requires Landed(v, kv, user, s1, s2, more, n, ok)
    ensures Landed(v, kv, user, s0, s2, ws + more, |ws| + n, ok)
  {
    assert ws[..|ws|] == ws;
    assert (ws + more)[..|ws| + n] == ws + more[..n];
    PutAllConcat(s0, kv, user, ws, more[..n]);
  }

  lemma LandedBefore(v: Vault, kv: string, user: string, s0: Store, s1: Store,
                     ws: seq<Write>, all: seq<Write>, n: nat)
    requires Landed(v, kv, user, s0, s1, ws, n, false) && ws <= all
    ensures Landed(v, kv, user, s0, s1, all, n, false)
  {
    assert all[..n] == ws[..n] && all[n] == ws[n];
  }

  lemma WritesConcat(base: string, a: seq<Visit>, b: seq<Visit>)
    ensures Writes(base, a + b) == Writes(base, a) + Writes(base, b)
  {
  }

  /** One more directory entry is done. */
  lemma EntryLanded(v: Vault, kv: string, user: string, s0: Store, s1: Store, s2: Store,
                    base: string, es: seq<Entry>, i: nat, names: seq<string>, n: nat, m: nat, ok: bool)
    requires i < |es|
    requires Landed(v, kv, user, s0, s1, Writes(base, VisitsAll(es[..i], names)), n, true)
    requires Landed(v, kv, user, s1, s2, Writes(base, Visits(es[i].node, names + [es[i].name])), m, ok)
    ensures Landed(v, kv, user, s0, s2, Writes(base, VisitsAll(es[..i + 1], names)), n + m, ok)
  {
    var visits, more := VisitsAll(es[..i], names), Visits(es[i].node, names + [es[i].name]);
    LandedThen(v, kv, user, s0, s1, s2, Writes(base, visits), Writes(base, more), m, ok);
    VisitsAllSnoc(es, i, names);
    WritesConcat(base, visits, more);
  }

  /** Entries after the one that failed change nothing. */
  lemma EntryFailed(v: Vault, kv: string, user: string, s0: Store, s1: Store,
                    base: string, es: seq<Entry>, i: nat, names: seq<string>, n: nat)
    requires i <= |es|
    requires Landed(v, kv, user, s0, s1, Writes(base, VisitsAll(es[..i], names)), n, false)
    ensures Landed(v, kv, user, s0, s1, Writes(base, VisitsAll(es, names)), n, false)
  {
    assert es[..i] + es[i..] == es;
    VisitsAllConcat(es[..i], es[i..], names);
    WritesConcat(base, VisitsAll(es[..i], names), VisitsAll(es[i..], names));
    LandedBefore(v, kv, user, s0, s1, Writes(base, VisitsAll(es[..i], names)), Writes(base, VisitsAll(es, names)), n);
  }

  lemma EntriesEnd(v: Vault, kv: string, user: string, s0: Store, s1: Store,
                   base: string, es: seq<Entry>, i: nat, names: seq<string>, n: nat, ok: bool)
    requires i <= |es| && (ok ==> i == |es|)
    requires Landed(v, kv, user, s0, s1, Writes(base, VisitsAll(es[..i], names)), n, ok)
    ensures Landed(v, kv, user, s0, s1, Writes(base, VisitsAll(es, names)), n, ok)
  {
    if ok {
      assert es[..i] == es;
    } else {
      EntryFailed(v, kv, user, s0, s1, base, es, i, names, n);
    }
  }

  /** The text stored under a name of a user, if it is in the form that can be read back. */
  function FileText(store: Store, kv: string, user: string, name: string): Option<string> {
    var t := FileTarget(kv, user, name);
    if t.Data? && t.key in store && store[t.key].Content? then Some(store[t.key].text) else None
  }

  /** Why there is no such text, where the server answers. */
  function ReadError(store: Store, kv: string, user: string, name: string): Option<Error> {
    var t := FileTarget(kv, user, name);
    if !t.Data? || t.key !in store then Some(NotFound)
    else match store[t.key]
      case NoData => Some(InvalidFormat)
      case NoContent => Some(ContentMissing)
      case Content(_) => None
  }

  lemma ReadErrorIff(store: Store, kv: string, user: string, name: string)
    ensures ReadError(store, kv, user, name).None? <==> FileText(store, kv, user, name).Some?
  {
  }

  function Listing(store: Store, kv: string, user: string, dir: string): set<string> {
    var t := Route(Clean(kv), ListPath(kv, user, dir));
    if t.Meta? then Children(store, t.key) else {}
  }

  /** The names under which the listed files of a directory are returned. */
  function FileNames(dir: string, listed: set<string>): set<string> {
    set n | n in listed && !Marker(n) :: dir + "/" + n
  }

  lemma FileNamesAdd(dir: string, listed: set<string>, n: string)
    ensures FileNames(dir, listed + {n}) == FileNames(dir, listed) + if Marker(n) then {} else {dir + "/" + n}
  {
  }

  predicate AllReadable(store: Store, kv: string, user: string, names: set<string>) {
    forall n <- names :: FileText(store, kv, user, n).Some?
  }

  function Texts(store: Store, kv: string, user: string, names: set<string>): map<string, string> {
    map n | n in names && FileText(store, kv, user, n).Some? :: FileText(store, kv, user, n).value
  }

  lemma TextsAdd(store: Store, kv: string, user: string, before: map<string, string>, names: set<string>, n: string)
    requires FileText(store, kv, user, n).Some?
    ensures before + Texts(store, kv, user, names + {n})
         == (before + Texts(store, kv, user, names))[n := FileText(store, kv, user, n).value]
  {
  }

  predicate DirServable(store: Store, kv: string, user: string, dir: string) {
    var listed := Listing(store, kv, user, dir);
    listed != {} && AllReadable(store, kv, user, FileNames(dir, listed))
  }

  /** Nothing is listed, or one of the listed files cannot be read. */
  predicate DirError(store: Store, kv: string, user: string, dir: string, error: Error) {
    var listed := Listing(store, kv, user, dir);
    if listed == {} then error == NotFound
    else exists n <- FileNames(dir, listed) :: ReadError(store, kv, user, n) == Some(error)
  }

  function DirFiles(store: Store, kv: string, user: string, dir: string): map<string, string> {
    Texts(store, kv, user, FileNames(dir, Listing(store, kv, user, dir)))
  }

  /** The map one request collects its files in. */
  class MspData {
    var files: map<string, string>

    constructor ()
      ensures files == map[]
    {
      files := map[];
    }
  }

  class VaultRepo {
    const kvPath: string
    const vault: Vault

    constructor (kvPath: string, vault: Vault)
      ensures this.kvPath == kvPath && this.vault == vault
    {
      this.kvPath, this.vault := kvPath, vault;
    }

    predicate Valid() {
      vault.mount == Clean(kvPath)
    }

    method StoreDirectory(username: string, base: string, dir: Node) returns (ok: bool, ghost n: nat)
      requires Valid()
      modifies vault
      ensures Landed(vault, kvPath, username, old(vault.store), vault.store, Writes(base, Visits(dir, [])), n, ok)
    {
      ok, n := Walk(username, base, dir, []);
    }

    /** The walk below one path; the first error ends it. */
    method Walk(username: string, base: string, node: Node, names: seq<string>) returns (ok: bool, ghost n: nat)
      requires Valid()
      modifies vault
      ensures Landed(vault, kvPath, username, old(vault.store), vault.store, Writes(base, Visits(node, names)), n, ok)
      decreases node, 1
    {
      match node
      case Broken =>
        ok, n := false, 0;
      case File(content) =>
        ok := vault.LogicalWrite(DataPath(kvPath, username, Rest(base, names)), Encode(content));
        n := if ok then 1 else 0;
      case Dir(entries) =>
        ok, n := WalkEntries(username, base, entries, names);
    }

    method WalkEntries(username: string, base: string, entries: seq<Entry>, names: seq<string>)
      returns (ok: bool, ghost n: nat)
      requires Valid()
      modifies vault
      ensures Landed(vault, kvPath, username, old(vault.store), vault.store,
        Writes(base, VisitsAll(entries, names)), n, ok)
      decreases entries, 0
    {
      var i := 0;
      ghost var s0, s1 := vault.store, vault.store;
      ok, n := true, 0;
      while i < |entries| && ok
        invariant i <= |entries| && s1 == vault.store
        invariant Landed(vault, kvPath, username, s0, s1, Writes(base, VisitsAll(entries[..i], names)), n, ok)
      {
        ghost var m;
        ok, m := Walk(username, base, entries[i].node, names + [entries[i].name]);
        EntryLanded(vault, kvPath, username, s0, s1, vault.store, base, entries, i, names, n, m, ok);
        n, i, s1 := n + m, i + 1, vault.store;
      }
      EntriesEnd(vault, kvPath, username, s0, s1, base, entries, i, names, n, ok);
    }

    method GetVaultContent(username: string, path: string) returns (r: Result<string>)
      requires Valid()
      ensures r.Ok? ==> FileText(vault.store, kvPath, username, path) == Some(r.value)
      ensures r.Err? ==>
        if r.error == VaultFailed then !vault.reliable
        else Some(r.error) == ReadError(vault.store, kvPath, username, path)
    {
      var answer := vault.LogicalRead(DataPath(kvPath, username, path));
      match answer
      case Unavailable => r := Err(VaultFailed);
      case Missing => r := Err(NotFound);
      case Found(NoData) => r := Err(InvalidFormat);
      case Found(NoContent) => r := Err(ContentMissing);
      case Found(Content(text)) => r := Ok(text);
    }

    method GetDirectoryContent(username: string, dir: string, data: MspData) returns (error: Option<Error>)
      requires Valid()
      modifies data
      ensures error.None? ==> DirServable(vault.store, kvPath, username, dir)
      ensures error.None? ==> data.files == old(data.files) + DirFiles(vault.store, kvPath, username, dir)
      ensures error.Some? ==>
        if error.value == VaultFailed then !vault.reliable else !DirServable(vault.store, kvPath, username, dir)
      ensures error.Some? && error.value != VaultFailed ==>
        DirError(vault.store, kvPath, username, dir, error.value)
    {
      var answer := vault.LogicalList(ListPath(kvPath, username, dir));
      match answer
      case Unavailable => error := Some(VaultFailed);
      case Missing => error := Some(NotFound);
      case Found(keys) =>
        ghost var names: set<string> := {};
        for i := 0 to |keys|
          invariant names == FileNames(dir, Elements(keys[..i]))
          invariant AllReadable(vault.store, kvPath, username, names)
          invariant data.files == old(data.files) + Texts(vault.store, kvPath, username, names)
        {
          assert Elements(keys[..i + 1]) == Elements(keys[..i]) + {keys[i]};
          FileNamesAdd(dir, Elements(keys[..i]), keys[i]);
          if !Marker(keys[i]) {
            var name := dir + "/" + keys[i];
            var content := GetVaultContent(username, name);
            match content {
              case Err(e) =>
                assert keys[i] in Elements(keys);
                assert name in FileNames(dir, Elements(keys));
                ReadErrorIff(vault.store, kvPath, username, name);
                return Some(e);
              case Ok(text) =>
                TextsAdd(vault.store, kvPath, username, old(data.files), names, name);
                data.files := data.files[name := text];
                names := names + {name};
            }
          }
        }
        assert keys[..|keys|] == keys && keys[0] in Elements(keys);
        error := None;
    }
  }
}
