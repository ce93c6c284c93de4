/** What storing and reading MSPs means for what a user gets back. */
module MspProperties {
  import opened Text
  import opened Base64
  import opened Paths
  import opened VaultEngine
  import opened MspTree
  import opened VaultRepository
  import opened VaultServices

  /** The server only holds cleaned keys. */
  predicate StorePlain(store: Store) {
    forall k <- store :: forall c <- k :: Plain(c)
  }

  lemma FileAt(kv: string, user: string, dir: string, f: string)
    requires Contained(user) && Plain(dir) && Plain(f)
    ensures FileTarget(kv, user, dir + "/" + f) == Data(FileKey(user, dir, f)) && Rest(dir, [f]) == dir + "/" + f
  {
    FileRoute(kv, user, dir, [f]);
  }

  predicate AllPlain(names: seq<string>) {
    forall n <- names :: Plain(n)
  }

  predicate IsDir(dir: string) {
    dir == SIGNCERTS || dir == KEYSTORE || dir == CACERTS
  }

  function NodeOf(msp: Msp, dir: string): Node {
    if dir == SIGNCERTS then msp.signcerts else if dir == KEYSTORE then msp.keystore else msp.cacerts
  }

  predicate MspWellFormed(msp: Msp) {
    WellFormed(msp.signcerts) && WellFormed(msp.keystore) && WellFormed(msp.cacerts)
  }

  /** What the last write to `key` left there, if any write did. */
  function LastWrite(kv: string, user: string, ws: seq<Write>, key: Key): Option<seq<byte>>
    decreases |ws|
  {
    if ws == [] then None
    else
      var later := LastWrite(kv, user, ws[1..], key);
      if later.Some? then later
      else if Storable(kv, user, ws[0]) && FileTarget(kv, user, ws[0].rest).key == key then ws[0].content
      else None
  }

  /** Later files win, and what no file was written to is as it was. */
  lemma {:induction false} PutAllAt(store: Store, kv: string, user: string, ws: seq<Write>, key: Key)
    ensures var s, last := PutAll(store, kv, user, ws), LastWrite(kv, user, ws, key);
      if last.Some? then key in s && s[key] == Content(Encode(last.value))
      else (key in s <==> key in store) && (key in store ==> s[key] == store[key])
    decreases |ws|
  {
    if ws != [] {
      PutAllAt(Put(store, kv, user, ws[0]), kv, user, ws[1..], key);
    }
  }

  /** Storing the same files twice is storing them once. */
  lemma PutAllTwice(store: Store, kv: string, user: string, ws: seq<Write>)
    ensures PutAll(PutAll(store, kv, user, ws), kv, user, ws) == PutAll(store, kv, user, ws)
  {
    var once := PutAll(store, kv, user, ws);
    var twice := PutAll(once, kv, user, ws);
    forall key ensures (key in twice <==> key in once) && (key in once ==> twice[key] == once[key]) {
      PutAllAt(store, kv, user, ws, key);
      PutAllAt(once, kv, user, ws, key);
    }
  }

  lemma {:induction false} LastWriteConcat(kv: string, user: string, a: seq<Write>, b: seq<Write>, key: Key)
    ensures LastWrite(kv, user, a + b, key)
         == if LastWrite(kv, user, b, key).Some? then LastWrite(kv, user, b, key) else LastWrite(kv, user, a, key)
    decreases |a|
  {
    if a == [] {
      assert a + b == b;
    } else {
      assert (a + b)[1..] == a[1..] + b;
      LastWriteConcat(kv, user, a[1..], b, key);
    }
  }

  lemma {:induction false} LastWriteNone(kv: string, user: string, ws: seq<Write>, key: Key)
    requires forall w <- ws :: FileTarget(kv, user, w.rest) != Data(key)
    ensures LastWrite(kv, user, ws, key) == None
    decreases |ws|
  {
    if ws != [] {
      assert ws[0] in ws && forall w <- ws[1..] :: w in ws;
      LastWriteNone(kv, user, ws[1..], key);
    }
  }

  /** The key each file of a directory goes to. */
  lemma WriteTargets(kv: string, user: string, dir: string, visits: seq<Visit>, w: Write)
    requires Contained(user) && Plain(dir) && w in Writes(dir, visits)
    requires forall v <- visits :: forall n <- v.names :: Plain(n)
    ensures exists v <- visits ::
      w.content == v.content && FileTarget(kv, user, w.rest) == Data(At(user, dir) + v.names)
  {
    var i :| 0 <= i < |visits| && w == Write(Rest(dir, visits[i].names), visits[i].content);
    assert visits[i] in visits;
    FileRoute(kv, user, dir, visits[i].names);
  }

  lemma VisitsPlain(node: Node)
    requires WellFormed(node)
    ensures forall v <- Visits(node, []) :: forall n <- v.names :: Plain(n)
  {
    forall v | v in Visits(node, []) ensures forall n <- v.names :: Plain(n) {
      VisitsBelow(node, [], v);
      assert v.names == v.names[0..];
    }
  }

  /** Files of one directory never land on a key of another. */
  lemma OtherKeys(kv: string, user: string, dir: string, node: Node, name: string, rest: Key)
    requires Contained(user) && Plain(dir) && WellFormed(node) && name != dir
    ensures LastWrite(kv, user, Writes(dir, Visits(node, [])), At(user, name) + rest) == None
  {
    var key := At(user, name) + rest;
    VisitsPlain(node);
    forall w | w in Writes(dir, Visits(node, [])) ensures FileTarget(kv, user, w.rest) != Data(key) {
      WriteTargets(kv, user, dir, Visits(node, []), w);
      var v :| v in Visits(node, []) && FileTarget(kv, user, w.rest) == Data(At(user, dir) + v.names);
      if At(user, dir) + v.names == key {
        AtInjective(user, dir, v.names, name, rest);
      }
    }
    LastWriteNone(kv, user, Writes(dir, Visits(node, [])), key);
  }

  function Lookup(files: map<string, seq<byte>>, name: string): Option<seq<byte>> {
    if name in files then Some(files[name]) else None
  }

  /** Under `dir` directly, exactly the immediate files are written; deeper ones go elsewhere. */
  lemma {:induction false} EntriesLast(kv: string, user: string, dir: string, es: seq<Entry>, f: string)
    requires Contained(user) && Plain(dir)
    requires forall e <- es :: Plain(e.name) && WellFormed(e.node)
    ensures LastWrite(kv, user, Writes(dir, VisitsAll(es, [])), FileKey(user, dir, f)) == Lookup(FlatEntries(es), f)
  {
    if es != [] {
      var e, key := es[0], FileKey(user, dir, f);
      assert e in es && forall e' <- es[1..] :: e' in es;
      EntriesLast(kv, user, dir, es[1..], f);
      var first := Visits(e.node, [] + [e.name]);
      WritesConcat(dir, first, VisitsAll(es[1..], []));
      LastWriteConcat(kv, user, Writes(dir, first), Writes(dir, VisitsAll(es[1..], [])), key);
      EntryLast(kv, user, dir, e, f);
    }
  }

  lemma EntryLast(kv: string, user: string, dir: string, e: Entry, f: string)
    requires Contained(user) && Plain(dir) && Plain(e.name) && WellFormed(e.node)
    ensures LastWrite(kv, user, Writes(dir, Visits(e.node, [] + [e.name])), FileKey(user, dir, f))
         == if e.node.File? && e.name == f then Some(e.node.content) else None
  {
    var visits, key := Visits(e.node, [] + [e.name]), FileKey(user, dir, f);
    if e.node.File? {
      FileRoute(kv, user, dir, [e.name]);
      var w := Write(Rest(dir, [e.name]), Some(e.node.content));
      assert Writes(dir, visits) == [w];
      assert FileTarget(kv, user, w.rest) == Data(At(user, dir) + [e.name]);
      assert At(user, dir) + [e.name] == key <==> e.name == f by {
        if At(user, dir) + [e.name] == key {
          AtInjective(user, dir, [e.name], dir, [f]);
        }
      }
      assert LastWrite(kv, user, [w][1..], key) == None;
    } else if e.node.Broken? {
      assert Writes(dir, visits) == [Write(Rest(dir, [e.name]), None)];
      assert LastWrite(kv, user, Writes(dir, visits)[1..], key) == None;
    } else {
      assert [] + [e.name] == [e.name];
      forall v | v in visits ensures |v.names| >= 2 && forall n <- v.names :: Plain(n) {
        VisitsAllBelow(e.node.entries, [e.name], v);
        assert v.names == [e.name] + v.names[1..];
      }
      forall w | w in Writes(dir, visits) ensures FileTarget(kv, user, w.rest) != Data(key) {
        WriteTargets(kv, user, dir, visits, w);
        var v :| v in visits && w.content == v.content && FileTarget(kv, user, w.rest) == Data(At(user, dir) + v.names);
        assert |At(user, dir) + v.names| > |key|;
      }
      LastWriteNone(kv, user, Writes(dir, visits), key);
    }
  }

  lemma DirLast(kv: string, user: string, dir: string, node: Node, f: string)
    requires Contained(user) && Plain(dir) && WellFormed(node)
    ensures LastWrite(kv, user, Writes(dir, Visits(node, [])), FileKey(user, dir, f)) == Lookup(FlatFiles(node), f)
  {
    if node.Dir? {
      EntriesLast(kv, user, dir, node.entries, f);
    } else {
      var key := FileKey(user, dir, f);
      var ws := Writes(dir, Visits(node, []));
      FileRoute(kv, user, dir, []);
      assert ws == [Write(Rest(dir, []), if node.File? then Some(node.content) else None)];
      assert |At(user, dir) + []| < |key|;
      LastWriteNone(kv, user, ws, key);
    }
  }

  lemma KeyRoute(kv: string, user: string)
    requires Contained(user)
    ensures FileTarget(kv, user, REVOCATION_KEY) == Data(At(user, REVOCATION_KEY))
  {
    NameRoute(kv, user, REVOCATION_KEY);
  }

  /** What a whole StoreUserMSP writes to a key the user's MSP is read from. */
  lemma PlanLast(kv: string, user: string, msp: Msp, dir: string, f: string)
    requires Contained(user) && IsDir(dir) && MspWellFormed(msp)
    ensures LastWrite(kv, user, Plan(msp), FileKey(user, dir, f)) == Lookup(FlatFiles(NodeOf(msp, dir)), f)
  {
    PlanSplit(kv, user, msp, FileKey(user, dir, f));
    DirLast(kv, user, dir, NodeOf(msp, dir), f);
    if dir != SIGNCERTS { OtherKeys(kv, user, SIGNCERTS, msp.signcerts, dir, [f]); }
    if dir != KEYSTORE { OtherKeys(kv, user, KEYSTORE, msp.keystore, dir, [f]); }
    if dir != CACERTS { OtherKeys(kv, user, CACERTS, msp.cacerts, dir, [f]); }
    KeyRoute(kv, user);
    assert |At(user, REVOCATION_KEY)| < |FileKey(user, dir, f)|;
    LastWriteNone(kv, user, KeyWrite(msp), FileKey(user, dir, f));
  }

  lemma PlanLastKey(kv: string, user: string, msp: Msp)
    requires Contained(user) && MspWellFormed(msp)
    ensures LastWrite(kv, user, Plan(msp), At(user, REVOCATION_KEY)) == msp.revocationKey
  {
    var key := At(user, REVOCATION_KEY);
    assert key + [] == key;
    assert REVOCATION_KEY[0] == 'I' && SIGNCERTS[0] != 'I' && KEYSTORE[0] != 'I' && CACERTS[0] != 'I';
    PlanSplit(kv, user, msp, key);
    OtherKeys(kv, user, SIGNCERTS, msp.signcerts, REVOCATION_KEY, []);
    OtherKeys(kv, user, KEYSTORE, msp.keystore, REVOCATION_KEY, []);
    OtherKeys(kv, user, CACERTS, msp.cacerts, REVOCATION_KEY, []);
    KeyRoute(kv, user);
    assert KeyWrite(msp) != [] ==> LastWrite(kv, user, KeyWrite(msp)[1..], key) == None;
  }

  lemma PlanSplit(kv: string, user: string, msp: Msp, key: Key)
    ensures var w0, w1 := LastWrite(kv, user, KeyWrite(msp), key),
      LastWrite(kv, user, Writes(SIGNCERTS, Visits(msp.signcerts, [])), key);
      var w2, w3 := LastWrite(kv, user, Writes(KEYSTORE, Visits(msp.keystore, [])), key),
        LastWrite(kv, user, Writes(CACERTS, Visits(msp.cacerts, [])), key);
      LastWrite(kv, user, Plan(msp), key)
        == if w3.Some? then w3 else if w2.Some? then w2 else if w1.Some? then w1 else w0
  {
    var w0, w1 := KeyWrite(msp), Writes(SIGNCERTS, Visits(msp.signcerts, []));
    var w2, w3 := Writes(KEYSTORE, Visits(msp.keystore, [])), Writes(CACERTS, Visits(msp.cacerts, []));
    LastWriteConcat(kv, user, w0 + w1 + w2, w3, key);
    LastWriteConcat(kv, user, w0 + w1, w2, key);
    LastWriteConcat(kv, user, w0, w1, key);
  }

  /** What is read from a directory of an ordinary user, file by file. */
  lemma DirFilesAt(store: Store, kv: string, user: string, dir: string, f: string)
    requires StorePlain(store) && Contained(user) && Plain(dir) && Plain(f)
    ensures var key := FileKey(user, dir, f);
      if key in store && store[key].Content?
      then dir + "/" + f in DirFiles(store, kv, user, dir) && DirFiles(store, kv, user, dir)[dir + "/" + f]
        == store[key].text
      else dir + "/" + f !in DirFiles(store, kv, user, dir)
  {
    var key, name := FileKey(user, dir, f), dir + "/" + f;
    ListRoute(kv, user, dir);
    FileAt(kv, user, dir, f);
    if key in store {
      assert ChildName(At(user, dir), key) == f;
      assert f in Listing(store, kv, user, dir) && !Marker(f);
    }
  }

  /** A directory holds nothing else: nested files appear as directory markers only. */
  lemma DirFilesOnly(store: Store, kv: string, user: string, dir: string, name: string)
    requires StorePlain(store) && Contained(user) && Plain(dir)
    requires name in FileNames(dir, Listing(store, kv, user, dir))
    ensures exists f :: Plain(f) && name == dir + "/" + f && FileKey(user, dir, f) in store
  {
    ListRoute(kv, user, dir);
    var n :| n in Listing(store, kv, user, dir) && !Marker(n) && name == dir + "/" + n;
    var key :| key in store && At(user, dir) < key && n == ChildName(At(user, dir), key);
    assert |key| == |At(user, dir)| + 1;
    assert key == FileKey(user, dir, n) && n in key;
  }

  function PathNames(dir: string, files: set<string>): set<string> {
    set f | f in files :: dir + "/" + f
  }

  /** Files as they are stored, under the names they are returned by. */
  function Encoded(dir: string, files: map<string, seq<byte>>): map<string, string> {
    map n | n in PathNames(dir, files.Keys) :: Encode(files[n[|dir| + 1..]])
  }

  /** Directly below `dir`, the store `after` is `before` overlaid with `files`. */
  predicate OverlaidAt(before: Store, after: Store, key: Key, file: Option<seq<byte>>) {
    if file.Some? then key in after && after[key] == Content(Encode(file.value))
    else (key in after <==> key in before) && (key in before ==> after[key] == before[key])
  }

  lemma DirFilesOverlaid(before: Store, after: Store, kv: string, user: string, dir: string,
                         files: map<string, seq<byte>>)
    requires StorePlain(before) && StorePlain(after) && Contained(user) && Plain(dir) && forall f <- files :: Plain(f)
    requires forall f :: Plain(f) ==> OverlaidAt(before, after, FileKey(user, dir, f), Lookup(files, f))
    ensures DirFiles(after, kv, user, dir) == DirFiles(before, kv, user, dir) + Encoded(dir, files)
  {
    var l, m, e := DirFiles(after, kv, user, dir), DirFiles(before, kv, user, dir), Encoded(dir, files);
    forall n ensures (n in l <==> n in m + e) && (n in l ==> l[n] == (m + e)[n]) {
      if n in l || n in m || n in e {
        var f := DirFileOf(before, after, kv, user, dir, files, n);
        DirFilesAt(after, kv, user, dir, f);
        DirFilesAt(before, kv, user, dir, f);
        EncodedAt(dir, files, f);
        assert OverlaidAt(before, after, FileKey(user, dir, f), Lookup(files, f));
      }
    }
  }

  lemma DirFileOf(before: Store, after: Store, kv: string, user: string, dir: string,
                  files: map<string, seq<byte>>, n: string)
    returns (f: string)
    requires StorePlain(before) && StorePlain(after) && Contained(user) && Plain(dir) && forall f <- files :: Plain(f)
    requires n in DirFiles(after, kv, user, dir) || n in DirFiles(before, kv, user, dir) || n in Encoded(dir, files)
    ensures Plain(f) && n == dir + "/" + f
  {
    if n in DirFiles(after, kv, user, dir) {
      DirFilesOnly(after, kv, user, dir, n);
      f :| Plain(f) && n == dir + "/" + f && FileKey(user, dir, f) in after;
    } else if n in DirFiles(before, kv, user, dir) {
      DirFilesOnly(before, kv, user, dir, n);
      f :| Plain(f) && n == dir + "/" + f && FileKey(user, dir, f) in before;
    } else {
      f :| f in files && n == dir + "/" + f;
    }
  }

  /** Storing an MSP overlays, in each directory, the immediate files on what could be read before. */
  lemma DirOverlay(before: Store, after: Store, kv: string, user: string, dir: string, msp: Msp)
    requires StorePlain(before) && Contained(user) && IsDir(dir) && MspWellFormed(msp)
    requires after == PutAll(before, kv, user, Plan(msp))
    ensures DirFiles(after, kv, user, dir)
      == DirFiles(before, kv, user, dir) + Encoded(dir, FlatFiles(NodeOf(msp, dir)))
  {
    var files := FlatFiles(NodeOf(msp, dir));
    PutAllPlain(before, kv, user, Plan(msp));
    FlatPlain(NodeOf(msp, dir));
    forall f | Plain(f) ensures OverlaidAt(before, after, FileKey(user, dir, f), Lookup(files, f)) {
      PutAllAt(before, kv, user, Plan(msp), FileKey(user, dir, f));
      PlanLast(kv, user, msp, dir, f);
    }
    DirFilesOverlaid(before, after, kv, user, dir, files);
  }

  lemma EncodedAt(dir: string, files: map<string, seq<byte>>, f: string)
    ensures var n := dir + "/" + f;
      if f in files then n in Encoded(dir, files) && Encoded(dir, files)[n] == Encode(files[f])
        else n !in Encoded(dir, files)
  {
    assert (dir + "/" + f)[|dir| + 1..] == f;
    if dir + "/" + f in Encoded(dir, files) {
      var g :| g in files && dir + "/" + f == dir + "/" + g;
      assert (dir + "/" + g)[|dir| + 1..] == g;
    }
  }

  lemma FlatPlain(node: Node)
    requires WellFormed(node)
    ensures forall f <- FlatFiles(node) :: Plain(f)
  {
    forall f | f in FlatFiles(node) ensures Plain(f) {
      FlatNames(node.entries, f);
    }
  }

  /** Writing keeps the keys clean, for any user name and path. */
  lemma {:induction false} PutAllPlain(store: Store, kv: string, user: string, ws: seq<Write>)
    requires StorePlain(store)
    ensures StorePlain(PutAll(store, kv, user, ws))
    decreases |ws|
  {
    if ws != [] {
      CleanPlain(DataPath(kv, user, ws[0].rest));
      PutAllPlain(Put(store, kv, user, ws[0]), kv, user, ws[1..]);
    }
  }

  /** What a stored MSP adds to what its user gets back. */
  function StoredView(msp: Msp): map<string, string> {
    KeyText(msp.revocationKey) + Encoded(SIGNCERTS, FlatFiles(msp.signcerts))
    + Encoded(KEYSTORE, FlatFiles(msp.keystore)) + Encoded(CACERTS, FlatFiles(msp.cacerts))
  }

  function KeyText(key: Option<seq<byte>>): map<string, string> {
    if key.Some? then map[REVOCATION_KEY := Encode(key.value)] else map[]
  }

  lemma Interchange(a: map<string, string>, a': map<string, string>, b: map<string, string>, b': map<string, string>)
    requires a'.Keys !! b.Keys
    ensures (a + a') + (b + b') == (a + b) + (a' + b')
  {
  }

  lemma OverlayParts(k: map<string, string>, k': map<string, string>, s: map<string, string>, s': map<string, string>,
                     t: map<string, string>, t': map<string, string>, c: map<string, string>, c': map<string, string>)
    requires Tagged(k', 'I') && Tagged(s, 's') && Tagged(s', 's')
    requires Tagged(t, 'k') && Tagged(t', 'k') && Tagged(c, 'c')
    ensures (k + k') + (s + s') + (t + t') + (c + c') == (k + s + t + c) + (k' + s' + t' + c')
  {
    Interchange(k, k', s, s');
    Interchange(k + s, k' + s', t, t');
    Interchange(k + s + t, k' + s' + t', c, c');
  }

  lemma EncodedTagged(dir: string, files: map<string, seq<byte>>)
    requires dir != ""
    ensures Tagged(Encoded(dir, files), dir[0])
  {
  }

  lemma KeyOverlay(before: Store, after: Store, kv: string, user: string, msp: Msp)
    requires Contained(user) && MspWellFormed(msp) && after == PutAll(before, kv, user, Plan(msp))
    ensures Texts(after, kv, user, {REVOCATION_KEY})
      == Texts(before, kv, user, {REVOCATION_KEY}) + KeyText(msp.revocationKey)
  {
    KeyRoute(kv, user);
    PutAllAt(before, kv, user, Plan(msp), At(user, REVOCATION_KEY));
    PlanLastKey(kv, user, msp);
  }

  lemma DirTags(store: Store, kv: string, user: string, dir: string, files: map<string, seq<byte>>, c: char)
    requires dir != "" && dir[0] == c
    ensures Tagged(DirFiles(store, kv, user, dir), c) && Tagged(Encoded(dir, files), c)
  {
    DirFileNames(store, kv, user, dir);
    EncodedTagged(dir, files);
  }

  lemma KeyTag(key: Option<seq<byte>>)
    ensures Tagged(KeyText(key), 'I')
  {
    assert REVOCATION_KEY[0] == 'I';
  }

  lemma CombineParts(before: Store, after: Store, kv: string, user: string, msp: Msp)
    requires Texts(after, kv, user, {REVOCATION_KEY})
      == Texts(before, kv, user, {REVOCATION_KEY}) + KeyText(msp.revocationKey)
    requires DirFiles(after, kv, user, SIGNCERTS)
      == DirFiles(before, kv, user, SIGNCERTS) + Encoded(SIGNCERTS, FlatFiles(msp.signcerts))
    requires DirFiles(after, kv, user, KEYSTORE)
      == DirFiles(before, kv, user, KEYSTORE) + Encoded(KEYSTORE, FlatFiles(msp.keystore))
    requires DirFiles(after, kv, user, CACERTS)
      == DirFiles(before, kv, user, CACERTS) + Encoded(CACERTS, FlatFiles(msp.cacerts))
    ensures View(after, kv, user) == View(before, kv, user) + StoredView(msp)
  {
    DirTags(before, kv, user, SIGNCERTS, FlatFiles(msp.signcerts), 's');
    DirTags(before, kv, user, KEYSTORE, FlatFiles(msp.keystore), 'k');
    DirTags(before, kv, user, CACERTS, FlatFiles(msp.cacerts), 'c');
    KeyTag(msp.revocationKey);
    OverlayParts(Texts(before, kv, user, {REVOCATION_KEY}), KeyText(msp.revocationKey),
                 DirFiles(before, kv, user, SIGNCERTS), Encoded(SIGNCERTS, FlatFiles(msp.signcerts)),
                 DirFiles(before, kv, user, KEYSTORE), Encoded(KEYSTORE, FlatFiles(msp.keystore)),
                 DirFiles(before, kv, user, CACERTS), Encoded(CACERTS, FlatFiles(msp.cacerts)));
  }

  /** After a successful StoreUserMSP a user gets exactly what could be read before, overlaid
      with the immediate files of the three directories and the revocation key. */
  lemma StoreThenView(before: Store, after: Store, kv: string, user: string, msp: Msp)
    requires StorePlain(before) && Contained(user) && MspWellFormed(msp) && after == PutAll(before, kv, user, Plan(msp))
    ensures View(after, kv, user) == View(before, kv, user) + StoredView(msp)
  {
    KeyOverlay(before, after, kv, user, msp);
    assert NodeOf(msp, SIGNCERTS) == msp.signcerts;
    assert NodeOf(msp, KEYSTORE) == msp.keystore;
    assert NodeOf(msp, CACERTS) == msp.cacerts;
    DirOverlay(before, after, kv, user, SIGNCERTS, msp);
    DirOverlay(before, after, kv, user, KEYSTORE, msp);
    DirOverlay(before, after, kv, user, CACERTS, msp);
    CombineParts(before, after, kv, user, msp);
  }

  /** Every stored file a user gets back decodes to the bytes it had. */
  lemma ReadBackDecodes(before: Store, kv: string, user: string, msp: Msp, dir: string, f: string)
    requires StorePlain(before) && Contained(user) && MspWellFormed(msp) && IsDir(dir)
    requires f in FlatFiles(NodeOf(msp, dir))
    ensures var view := View(PutAll(before, kv, user, Plan(msp)), kv, user);
      dir + "/" + f in view && Decode(view[dir + "/" + f]) == Some(FlatFiles(NodeOf(msp, dir))[f])
  {
    var files, n := FlatFiles(NodeOf(msp, dir)), dir + "/" + f;
    StoreThenView(before, PutAll(before, kv, user, Plan(msp)), kv, user, msp);
    RoundTrip(files[f]);
    StoredViewAt(msp, dir, f);
  }

  lemma StoredViewAt(msp: Msp, dir: string, f: string)
    requires IsDir(dir) && f in FlatFiles(NodeOf(msp, dir))
    ensures dir + "/" + f in StoredView(msp) && StoredView(msp)[dir + "/" + f] == Encode(FlatFiles(NodeOf(msp, dir))[f])
  {
    EncodedAt(dir, FlatFiles(NodeOf(msp, dir)), f);
    assert SIGNCERTS[0] == 's' && KEYSTORE[0] == 'k' && CACERTS[0] == 'c' && (dir + "/" + f)[0] == dir[0];
    EncodedTagged(KEYSTORE, FlatFiles(msp.keystore));
    EncodedTagged(CACERTS, FlatFiles(msp.cacerts));
  }

  /** Whether a directory tree holds any file at all, however deep. */
  predicate HasFiles(node: Node) {
    exists v <- Visits(node, []) :: v.names != []
  }

  /** Nothing unreadable is left directly below a directory. */
  ghost predicate NothingUnreadable(store: Store, user: string, dir: string, replaced: set<string>) {
    forall f :: Plain(f) && f !in replaced && FileKey(user, dir, f) in store ==> store[FileKey(user, dir, f)].Content?
  }

  lemma {:induction false} LastWriteSome(kv: string, user: string, ws: seq<Write>, w: Write)
    requires w in ws && Storable(kv, user, w)
    ensures LastWrite(kv, user, ws, FileTarget(kv, user, w.rest).key).Some?
    decreases |ws|
  {
    if w in ws[1..] {
      LastWriteSome(kv, user, ws[1..], w);
    }
  }

  lemma {:induction false} LastWriteFrom(kv: string, user: string, ws: seq<Write>, key: Key)
    requires LastWrite(kv, user, ws, key).Some?
    ensures exists w <- ws :: FileTarget(kv, user, w.rest) == Data(key)
    decreases |ws|
  {
    if LastWrite(kv, user, ws[1..], key).Some? {
      LastWriteFrom(kv, user, ws[1..], key);
      var w :| w in ws[1..] && FileTarget(kv, user, w.rest) == Data(key);
      assert w in ws;
    } else {
      assert ws[0] in ws;
    }
  }

  lemma PlanParts(msp: Msp, w: Write)
    ensures w in Plan(msp) <==> w in KeyWrite(msp) || exists dir ::
      IsDir(dir) && w in Writes(dir, Visits(NodeOf(msp, dir), []))
  {
    if w in Plan(msp) && w !in KeyWrite(msp) {
      assert IsDir(SIGNCERTS) && IsDir(KEYSTORE) && IsDir(CACERTS);
      if w in Writes(SIGNCERTS, Visits(msp.signcerts, [])) {
        assert NodeOf(msp, SIGNCERTS) == msp.signcerts;
      } else if w in Writes(KEYSTORE, Visits(msp.keystore, [])) {
        assert KEYSTORE != SIGNCERTS && NodeOf(msp, KEYSTORE) == msp.keystore;
      } else {
        assert CACERTS != SIGNCERTS && CACERTS != KEYSTORE && NodeOf(msp, CACERTS) == msp.cacerts;
      }
    }
  }

  lemma ListedIff(store: Store, kv: string, user: string, dir: string)
    requires Contained(user) && Plain(dir)
    ensures Listing(store, kv, user, dir) != {} <==> exists key <- store :: At(user, dir) < key
  {
    ListRoute(kv, user, dir);
    if key :| key in store && At(user, dir) < key {
      assert ChildName(At(user, dir), key) in Children(store, At(user, dir));
    }
  }

  /** A file somewhere in a tree, as it is written. */
  lemma TreeFile(dir: string, node: Node) returns (w: Write, names: seq<string>)
    requires WellFormed(node) && HasFiles(node)
    ensures w in Writes(dir, Visits(node, [])) && w.rest == Rest(dir, names) && names != [] && AllPlain(names)
  {
    var visits := Visits(node, []);
    var i :| 0 <= i < |visits| && visits[i].names != [];
    w, names := Writes(dir, visits)[i], visits[i].names;
    VisitsPlain(node);
    assert visits[i] in visits;
  }

  lemma FileWritten(kv: string, user: string, dir: string, msp: Msp) returns (w: Write, names: seq<string>)
    requires Contained(user) && IsDir(dir) && MspWellFormed(msp) && HasFiles(NodeOf(msp, dir))
    ensures w in Plan(msp) && names != [] && FileTarget(kv, user, w.rest) == Data(At(user, dir) + names)
  {
    DirPlain(msp, dir);
    w, names := TreeFile(dir, NodeOf(msp, dir));
    PlanParts(msp, w);
    FileRoute(kv, user, dir, names);
  }

  lemma FileLanded(kv: string, user: string, dir: string, msp: Msp)
    requires Contained(user) && IsDir(dir) && MspWellFormed(msp)
    requires AllStorable(kv, user, Plan(msp)) && HasFiles(NodeOf(msp, dir))
    ensures exists key :: At(user, dir) < key && LastWrite(kv, user, Plan(msp), key).Some?
  {
    var w, names := FileWritten(kv, user, dir, msp);
    LastWriteSome(kv, user, Plan(msp), w);
    assert At(user, dir) < At(user, dir) + names;
  }

  /** A listing is there afterwards exactly if it was before or the tree has a file in it. */
  lemma ListedAfter(before: Store, after: Store, kv: string, user: string, dir: string, msp: Msp)
    requires Contained(user) && IsDir(dir) && MspWellFormed(msp)
    requires AllStorable(kv, user, Plan(msp)) && after == PutAll(before, kv, user, Plan(msp))
    ensures Listing(after, kv, user, dir) != {} <==> Listing(before, kv, user, dir) != {} || HasFiles(NodeOf(msp, dir))
  {
    var at := At(user, dir);
    ListedIff(before, kv, user, dir);
    ListedIff(after, kv, user, dir);
    if HasFiles(NodeOf(msp, dir)) {
      FileLanded(kv, user, dir, msp);
      var key :| at < key && LastWrite(kv, user, Plan(msp), key).Some?;
      PutAllAt(before, kv, user, Plan(msp), key);
    } else {
      forall key | at < key ensures key in after <==> key in before {
        PutAllAt(before, kv, user, Plan(msp), key);
        if LastWrite(kv, user, Plan(msp), key).Some? {
          WrittenBelow(kv, user, dir, msp, key);
        }
      }
    }
  }

  lemma DirPlain(msp: Msp, dir: string)
    requires IsDir(dir) && MspWellFormed(msp)
    ensures Plain(dir) && WellFormed(NodeOf(msp, dir))
  {
  }

  lemma NotTheKey(kv: string, user: string, dir: string, msp: Msp, w: Write, key: Key)
    requires Contained(user) && FileTarget(kv, user, w.rest) == Data(key) && At(user, dir) < key
    ensures w !in KeyWrite(msp)
  {
    KeyRoute(kv, user);
  }

  lemma WrittenBelow(kv: string, user: string, dir: string, msp: Msp, key: Key)
    requires Contained(user) && IsDir(dir) && MspWellFormed(msp) && At(user, dir) < key
    requires LastWrite(kv, user, Plan(msp), key).Some?
    ensures HasFiles(NodeOf(msp, dir))
  {
    LastWriteFrom(kv, user, Plan(msp), key);
    var w :| w in Plan(msp) && FileTarget(kv, user, w.rest) == Data(key);
    NotTheKey(kv, user, dir, msp, w, key);
    PlanParts(msp, w);
    var d :| IsDir(d) && w in Writes(d, Visits(NodeOf(msp, d), []));
    WrittenUnder(kv, user, dir, msp, key, w, d);
  }

  lemma WrittenUnder(kv: string, user: string, dir: string, msp: Msp, key: Key, w: Write, d: string)
    requires Contained(user) && IsDir(d) && MspWellFormed(msp) && At(user, dir) < key
    requires w in Writes(d, Visits(NodeOf(msp, d), [])) && FileTarget(kv, user, w.rest) == Data(key)
    ensures d == dir && HasFiles(NodeOf(msp, dir))
  {
    var rest := key[|At(user, dir)|..];
    DirPlain(msp, d);
    assert key == At(user, dir) + rest;
    WrittenIn(kv, user, d, NodeOf(msp, d), w, dir, rest);
  }

  lemma WrittenIn(kv: string, user: string, dir: string, node: Node, w: Write, name: string, rest: Key)
    requires Contained(user) && Plain(dir) && WellFormed(node) && w in Writes(dir, Visits(node, []))
    requires FileTarget(kv, user, w.rest) == Data(At(user, name) + rest) && rest != []
    ensures name == dir && HasFiles(node)
  {
    VisitsPlain(node);
    WriteTargets(kv, user, dir, Visits(node, []), w);
    var v :| v in Visits(node, []) && FileTarget(kv, user, w.rest) == Data(At(user, dir) + v.names);
    AtInjective(user, name, rest, dir, v.names);
  }

  lemma ReadableAfter(before: Store, after: Store, kv: string, user: string, dir: string, msp: Msp)
    requires StorePlain(before) && Contained(user) && IsDir(dir) && MspWellFormed(msp)
    requires after == PutAll(before, kv, user, Plan(msp))
    ensures AllReadable(after, kv, user, FileNames(dir, Listing(after, kv, user, dir)))
       <==> NothingUnreadable(before, user, dir, FlatFiles(NodeOf(msp, dir)).Keys)
  {
    var names, files := FileNames(dir, Listing(after, kv, user, dir)), FlatFiles(NodeOf(msp, dir));
    PutAllPlain(before, kv, user, Plan(msp));
    forall f | Plain(f)
      ensures OverlaidAt(before, after, FileKey(user, dir, f), Lookup(files, f))
      ensures FileKey(user, dir, f) in after ==>
        && dir + "/" + f in names
        && (FileText(after, kv, user, dir + "/" + f).Some? <==> after[FileKey(user, dir, f)].Content?)
    {
      PutAllAt(before, kv, user, Plan(msp), FileKey(user, dir, f));
      PlanLast(kv, user, msp, dir, f);
      ListedFile(after, kv, user, dir, f);
    }
    forall n | n in names ensures exists f :: Plain(f) && n == dir + "/" + f && FileKey(user, dir, f) in after {
      DirFilesOnly(after, kv, user, dir, n);
    }
    if AllReadable(after, kv, user, names) {
      forall f | Plain(f) && f !in files && FileKey(user, dir, f) in before
        ensures before[FileKey(user, dir, f)].Content? {
        assert OverlaidAt(before, after, FileKey(user, dir, f), Lookup(files, f));
        assert dir + "/" + f in names;
      }
    }
    if NothingUnreadable(before, user, dir, files.Keys) {
      forall n | n in names ensures FileText(after, kv, user, n).Some? {
        var f :| Plain(f) && n == dir + "/" + f && FileKey(user, dir, f) in after;
        assert OverlaidAt(before, after, FileKey(user, dir, f), Lookup(files, f));
      }
    }
  }

  lemma ListedFile(store: Store, kv: string, user: string, dir: string, f: string)
    requires Contained(user) && Plain(dir) && Plain(f)
    ensures FileKey(user, dir, f) in store ==>
      dir + "/" + f in FileNames(dir, Listing(store, kv, user, dir))
      && (FileText(store, kv, user, dir + "/" + f).Some? <==> store[FileKey(user, dir, f)].Content?)
  {
    var key := FileKey(user, dir, f);
    ListRoute(kv, user, dir);
    FileRoute(kv, user, dir, [f]);
    assert Rest(dir, [f]) == dir + "/" + f && At(user, dir) + [f] == key;
    if key in store {
      assert ChildName(At(user, dir), key) == f;
      assert f in Listing(store, kv, user, dir) && !Marker(f);
    }
  }

  /** What a directory needs before a store, for there to be an answer after it: something listed,
      from before or from the tree, and no unreadable secret left beside the new files. */
  ghost predicate DirReady(before: Store, kv: string, user: string, dir: string, node: Node) {
    && (Listing(before, kv, user, dir) != {} || HasFiles(node))
    && NothingUnreadable(before, user, dir, FlatFiles(node).Keys)
  }

  lemma DirServableAfter(before: Store, after: Store, kv: string, user: string, dir: string, msp: Msp)
    requires StorePlain(before) && Contained(user) && IsDir(dir) && MspWellFormed(msp)
    requires AllStorable(kv, user, Plan(msp)) && after == PutAll(before, kv, user, Plan(msp))
    ensures DirServable(after, kv, user, dir) <==> DirReady(before, kv, user, dir, NodeOf(msp, dir))
  {
    ListedAfter(before, after, kv, user, dir, msp);
    ReadableAfter(before, after, kv, user, dir, msp);
  }

  /** After a successful StoreUserMSP there is an answer exactly when each directory was ready for
      one and there is anything to return. */
  lemma StoreThenServable(before: Store, after: Store, kv: string, user: string, msp: Msp)
    requires StorePlain(before) && Contained(user) && MspWellFormed(msp)
    requires AllStorable(kv, user, Plan(msp)) && after == PutAll(before, kv, user, Plan(msp))
    ensures Servable(after, kv, user) <==>
      && DirReady(before, kv, user, SIGNCERTS, msp.signcerts)
      && DirReady(before, kv, user, KEYSTORE, msp.keystore)
      && DirReady(before, kv, user, CACERTS, msp.cacerts)
      && View(before, kv, user) + StoredView(msp) != map[]
  {
    assert SIGNCERTS[0] == 's' && KEYSTORE[0] == 'k' && CACERTS[0] == 'c';
    DirServableAfter(before, after, kv, user, SIGNCERTS, msp);
    DirServableAfter(before, after, kv, user, KEYSTORE, msp);
    DirServableAfter(before, after, kv, user, CACERTS, msp);
    StoreThenView(before, after, kv, user, msp);
  }
}
