/** Whose files a user sees, and which calls change what it gets. */
module MspIsolation {
  import opened Text
  import opened Base64
  import opened Paths
  import opened VaultEngine
  import opened MspTree
  import opened VaultRepository
  import opened VaultServices
  import opened MspProperties

  /** All of the store that GetUserMsp can see for a contained user, */
  predicate Sees(user: string, key: Key) {
    key == At(user, REVOCATION_KEY) || At(user, SIGNCERTS) < key || At(user, KEYSTORE) < key || At(user, CACERTS) < key
  }

  /** the directory it looks for a secret in, */
  function DirAbove(user: string, key: Key): string {
    if At(user, SIGNCERTS) < key then SIGNCERTS else if At(user, KEYSTORE) < key then KEYSTORE else CACERTS
  }

  /** and what of it is read, and not just listed. */
  predicate Reads(user: string, key: Key) {
    Sees(user, key) && (key == At(user, REVOCATION_KEY) || |key| == |Home(user)| + 2)
  }

  /** The same secrets where the user looks, with the same contents where it reads. */
  ghost predicate SameSeen(s: Store, s': Store, user: string) {
    && StorePlain(s) && StorePlain(s')
    && (forall key | Sees(user, key) :: key in s <==> key in s')
    && (forall key | Reads(user, key) && key in s && key in s' :: s[key] == s'[key])
  }

  lemma ChildrenSame(s: Store, s': Store, user: string, dir: string)
    requires SameSeen(s, s', user) && IsDir(dir)
    ensures Children(s, At(user, dir)) == Children(s', At(user, dir))
  {
    forall key | At(user, dir) < key ensures key in s <==> key in s' {
      assert Sees(user, key);
    }
  }

  lemma FileSame(s: Store, s': Store, kv: string, user: string, dir: string, f: string)
    requires Contained(user) && IsDir(dir) && Plain(f) && SameSeen(s, s', user)
    ensures FileText(s, kv, user, dir + "/" + f) == FileText(s', kv, user, dir + "/" + f)
  {
    FileAt(kv, user, dir, f);
    assert Sees(user, FileKey(user, dir, f)) && Reads(user, FileKey(user, dir, f));
  }

  lemma DirSeesSame(s: Store, s': Store, kv: string, user: string, dir: string)
    requires Contained(user) && IsDir(dir) && SameSeen(s, s', user)
    ensures DirServable(s, kv, user, dir) == DirServable(s', kv, user, dir)
    ensures DirFiles(s, kv, user, dir) == DirFiles(s', kv, user, dir)
  {
    ListRoute(kv, user, dir);
    ChildrenSame(s, s', user, dir);
    assert Listing(s, kv, user, dir) == Listing(s', kv, user, dir);
    var names := FileNames(dir, Listing(s, kv, user, dir));
    forall n | n in names ensures FileText(s, kv, user, n) == FileText(s', kv, user, n) {
      DirFilesOnly(s, kv, user, dir, n);
      var f :| Plain(f) && n == dir + "/" + f && FileKey(user, dir, f) in s;
      FileSame(s, s', kv, user, dir, f);
    }
    TextsSame(s, s', kv, user, names);
  }

  lemma TextsSame(s: Store, s': Store, kv: string, user: string, names: set<string>)
    requires forall n <- names :: FileText(s, kv, user, n) == FileText(s', kv, user, n)
    ensures Texts(s, kv, user, names) == Texts(s', kv, user, names)
    ensures AllReadable(s, kv, user, names) == AllReadable(s', kv, user, names)
  {
  }

  lemma KeySeesSame(s: Store, s': Store, kv: string, user: string)
    requires Contained(user) && SameSeen(s, s', user)
    ensures Texts(s, kv, user, {REVOCATION_KEY}) == Texts(s', kv, user, {REVOCATION_KEY})
  {
    KeyRoute(kv, user);
    assert Sees(user, At(user, REVOCATION_KEY)) && Reads(user, At(user, REVOCATION_KEY));
    TextsSame(s, s', kv, user, {REVOCATION_KEY});
  }

  /** What GetUserMsp answers depends on nothing else. */
  lemma SeenDecides(s: Store, s': Store, kv: string, user: string)
    requires Contained(user) && SameSeen(s, s', user)
    ensures View(s, kv, user) == View(s', kv, user) && (Servable(s, kv, user) <==> Servable(s', kv, user))
  {
    DirSeesSame(s, s', kv, user, SIGNCERTS);
    DirSeesSame(s, s', kv, user, KEYSTORE);
    DirSeesSame(s, s', kv, user, CACERTS);
    KeySeesSame(s, s', kv, user);
  }

  /** Where a climbing name's files would be listed they cannot be read, so it never gets an answer. */
  lemma ClimbingNeverServed(store: Store, kv: string, user: string)
    requires StorePlain(store) && !Contained(user)
    ensures !Servable(store, kv, user)
  {
    if forall d | IsDir(d) :: DirServable(store, kv, user, d) {
      assert IsDir(SIGNCERTS) && IsDir(KEYSTORE) && IsDir(CACERTS);
      ClimbingEmpty(store, kv, user, SIGNCERTS);
      ClimbingEmpty(store, kv, user, KEYSTORE);
      ClimbingEmpty(store, kv, user, CACERTS);
      NoTexts(store, kv, user);
    }
  }

  lemma NoTexts(store: Store, kv: string, user: string)
    requires FileText(store, kv, user, REVOCATION_KEY).None?
    requires DirFiles(store, kv, user, SIGNCERTS) == map[] && DirFiles(store, kv, user, KEYSTORE) == map[]
    requires DirFiles(store, kv, user, CACERTS) == map[]
    ensures View(store, kv, user) == map[]
  {
    assert Texts(store, kv, user, {REVOCATION_KEY}) == map[];
  }

  /** A listing of a place makes every path below it a metadata path. */
  lemma ListedIsMeta(mount: Key, listPath: string, path: string, base: Key, dir: string, rest: Key)
    requires Route(mount, listPath).Meta? && Clean(listPath) == base + [dir]
    requires Clean(path) == base + rest && rest != []
    ensures !Route(mount, path).Data?
  {
    var l, p := base + [dir], base + rest;
    assert |mount| < |base| && l[|mount|] == base[|mount|] && p[|mount|] == base[|mount|];
    assert "data" != "metadata" by {
      assert |"data"| == 4;
    }
  }

  lemma ClimbingFile(store: Store, kv: string, user: string, dir: string, f: string)
    requires !Contained(user) && Plain(dir) && Plain(f) && Route(Clean(kv), ListPath(kv, user, dir)).Meta?
    ensures FileText(store, kv, user, dir + "/" + f).None? && FileText(store, kv, user, f).None?
  {
    var base := Base(Clean(kv), "data", user);
    ClimbingPaths(kv, user, dir, f);
    assert base + [dir] + [f] == base + [dir, f];
    ListedIsMeta(Clean(kv), ListPath(kv, user, dir), DataPath(kv, user, dir + "/" + f), base, dir, [dir, f]);
    ListedIsMeta(Clean(kv), ListPath(kv, user, dir), DataPath(kv, user, f), base, dir, [f]);
  }

  lemma ListedPlain(store: Store, dir: Key, f: string)
    requires StorePlain(store) && f in Children(store, dir) && !Marker(f)
    ensures Plain(f)
  {
    var key :| key in store && dir < key && f == ChildName(dir, key);
    assert |key| == |dir| + 1 && f in key;
  }

  lemma ClimbingEmpty(store: Store, kv: string, user: string, dir: string)
    requires StorePlain(store) && !Contained(user) && IsDir(dir) && Listing(store, kv, user, dir) != {}
    ensures DirFiles(store, kv, user, dir) == map[] && FileText(store, kv, user, REVOCATION_KEY).None?
  {
    var at := Route(Clean(kv), ListPath(kv, user, dir));
    ClimbingFile(store, kv, user, dir, REVOCATION_KEY);
    forall n | n in FileNames(dir, Listing(store, kv, user, dir)) ensures FileText(store, kv, user, n).None? {
      var f :| f in Listing(store, kv, user, dir) && !Marker(f) && n == dir + "/" + f;
      ListedPlain(store, at.key, f);
      ClimbingFile(store, kv, user, dir, f);
    }
  }

  // ---- calls and what they change ---------------------------------------------------------------

  /** One call of the service, and what it leaves of a store; a StoreUserMSP may have failed
      after any number of files. */
  datatype Call = Save(user: string, msp: Msp, landed: nat) | Remove(user: string)

  predicate CallValid(c: Call) {
    c.Save? ==> MspWellFormed(c.msp) && c.landed <= |Plan(c.msp)|
  }

  function Effect(store: Store, kv: string, c: Call): Store
    requires CallValid(c)
  {
    match c
    case Save(user, msp, landed) => PutAll(store, kv, user, Plan(msp)[..landed])
    case Remove(user) => Deleted(store, Route(Clean(kv), UserPath(kv, user)))
  }

  function RunCalls(store: Store, kv: string, calls: seq<Call>): Store
    requires forall c <- calls :: CallValid(c)
    decreases |calls|
  {
    if calls == [] then store else RunCalls(Effect(store, kv, calls[0]), kv, calls[1..])
  }

  /** A write for one name that lands where another user looks. */
  predicate Hits(kv: string, u: string, w: Write, user: string) {
    Storable(kv, u, w) && Sees(user, FileTarget(kv, u, w.rest).key)
  }

  /** Whether a call can change what a user gets: a store with a file that lands where the user
      looks, or a removal of a secret the user looks at. Emptying one, which is all a removal does
      by a data path, tells only where the user reads. */
  predicate Disturbs(kv: string, c: Call, user: string)
    requires CallValid(c)
  {
    match c
    case Save(u, msp, landed) => exists w <- Plan(msp)[..landed] :: Hits(kv, u, w, user)
    case Remove(u) =>
      match Route(Clean(kv), UserPath(kv, u))
      case Meta(key) => Sees(user, key)
      case Data(key) => Reads(user, key)
      case Other => false
  }

  lemma EffectPlain(store: Store, kv: string, c: Call)
    requires StorePlain(store) && CallValid(c)
    ensures StorePlain(Effect(store, kv, c))
  {
    if c.Save? {
      PutAllPlain(store, kv, c.user, Plan(c.msp)[..c.landed]);
    }
  }

  lemma {:induction false} LastWriteMisses(kv: string, u: string, ws: seq<Write>, user: string, key: Key)
    requires Sees(user, key) && forall w <- ws :: !Hits(kv, u, w, user)
    ensures LastWrite(kv, u, ws, key) == None
    decreases |ws|
  {
    if ws != [] {
      assert ws[0] in ws && forall w <- ws[1..] :: w in ws;
      LastWriteMisses(kv, u, ws[1..], user, key);
    }
  }

  /** A call that does not disturb a user leaves all it sees alone. */
  lemma EffectElsewhere(store: Store, kv: string, c: Call, user: string)
    requires StorePlain(store) && CallValid(c) && Contained(user) && !Disturbs(kv, c, user)
    ensures SameSeen(store, Effect(store, kv, c), user)
  {
    EffectPlain(store, kv, c);
    if c.Save? {
      var ws := Plan(c.msp)[..c.landed];
      forall key | Sees(user, key)
        ensures var s := Effect(store, kv, c); (key in store <==> key in s) && (key in s ==> s[key] == store[key])
      {
        LastWriteMisses(kv, c.user, ws, user, key);
        PutAllAt(store, kv, c.user, ws, key);
      }
    }
  }

  /** The same answer: none in either store, or the same one. */
  predicate SameAnswer(s: Store, s': Store, kv: string, user: string) {
    && (Servable(s, kv, user) <==> Servable(s', kv, user))
    && (Servable(s, kv, user) ==> View(s, kv, user) == View(s', kv, user))
  }

  /** Over any sequence of calls for any names, a user keeps getting the same answer if none of
      them disturbs it; and a user whose name climbs out never gets one. */
  lemma {:induction false} CallsElsewhere(store: Store, kv: string, calls: seq<Call>, user: string)
    requires StorePlain(store)
    requires forall c <- calls :: CallValid(c) && (Contained(user) ==> !Disturbs(kv, c, user))
    ensures SameAnswer(store, RunCalls(store, kv, calls), kv, user)
    decreases |calls|
  {
    if calls != [] {
      assert calls[0] in calls && forall c <- calls[1..] :: c in calls;
      var next := Effect(store, kv, calls[0]);
      EffectPlain(store, kv, calls[0]);
      if Contained(user) {
        EffectElsewhere(store, kv, calls[0], user);
        SeenDecides(store, next, kv, user);
      } else {
        ClimbingNeverServed(store, kv, user);
        ClimbingNeverServed(next, kv, user);
      }
      CallsElsewhere(next, kv, calls[1..], user);
    }
  }

  /** RemoveUserMSP takes nothing away from what its own user gets, whatever the name. */
  lemma RemoveThenServable(store: Store, kv: string, user: string)
    requires StorePlain(store)
    ensures SameAnswer(store, Deleted(store, Route(Clean(kv), UserPath(kv, user))), kv, user)
  {
    if Contained(user) {
      UserRoute(kv, user);
      assert !Sees(user, Home(user));
    }
    CallsElsewhere(store, kv, [Remove(user)], user);
    assert [Remove(user)][1..] == [];
    assert RunCalls(store, kv, [Remove(user)]) == Effect(store, kv, Remove(user));
  }

  // ---- calls that do change something -----------------------------------------------------------

  predicate AllContent(store: Store) {
    forall k <- store :: store[k].Content?
  }

  lemma HomePlain(user: string)
    ensures AllPlain(Home(user))
  {
    PiecesFree(user, '/');
    PushPlainAlways(["users"], Split(user, '/'));
  }

  lemma DirsPlain(dir: string)
    requires IsDir(dir)
    ensures Plain(dir) && Plain("x")
  {
  }

  /** One readable file in each of the three directories. */
  function Sample(user: string): Store {
    map[FileKey(user, SIGNCERTS, "x") := Content(""),
        FileKey(user, KEYSTORE, "x") := Content(""),
        FileKey(user, CACERTS, "x") := Content("")]
  }

  /** And in all of them but one. */
  function SampleBut(user: string, dir: string): Store {
    Sample(user) - {FileKey(user, dir, "x")}
  }

  lemma SampleKeys(user: string, key: Key) returns (dir: string)
    requires key in Sample(user)
    ensures IsDir(dir) && key == FileKey(user, dir, "x")
  {
    dir := if key == FileKey(user, SIGNCERTS, "x") then SIGNCERTS
           else if key == FileKey(user, KEYSTORE, "x") then KEYSTORE
           else CACERTS;
  }

  lemma KeyPlain(user: string, dir: string, f: string)
    requires IsDir(dir) && Plain(f)
    ensures AllPlain(FileKey(user, dir, f))
  {
    HomePlain(user);
    DirsPlain(dir);
  }

  lemma SampleOk(user: string, dir: string)
    ensures StorePlain(Sample(user)) && AllContent(Sample(user))
    ensures StorePlain(SampleBut(user, dir)) && AllContent(SampleBut(user, dir))
  {
    KeyPlain(user, SIGNCERTS, "x");
    KeyPlain(user, KEYSTORE, "x");
    KeyPlain(user, CACERTS, "x");
  }

  lemma NothingBelow(user: string, dir: string, key: Key)
    requires key in SampleBut(user, dir)
    ensures !(At(user, dir) < key)
  {
    var d := SampleKeys(user, key);
    assert d != dir && key[..|At(user, d)|] == At(user, d);
    assert At(user, d)[|Home(user)|] == d && At(user, dir)[|Home(user)|] == dir;
  }

  lemma ContentReadable(store: Store, kv: string, user: string, dir: string)
    requires StorePlain(store) && AllContent(store) && Contained(user) && IsDir(dir)
    ensures AllReadable(store, kv, user, FileNames(dir, Listing(store, kv, user, dir)))
  {
    DirsPlain(dir);
    forall n | n in FileNames(dir, Listing(store, kv, user, dir)) ensures FileText(store, kv, user, n).Some? {
      DirFilesOnly(store, kv, user, dir, n);
      var f :| Plain(f) && n == dir + "/" + f && FileKey(user, dir, f) in store;
      FileAt(kv, user, dir, f);
    }
  }

  predicate HasBelow(store: Store, user: string, dir: string) {
    exists key <- store :: At(user, dir) < key
  }

  lemma ContentServable(store: Store, kv: string, user: string, dir: string)
    requires StorePlain(store) && AllContent(store) && Contained(user)
    requires HasBelow(store, user, SIGNCERTS) && HasBelow(store, user, KEYSTORE) && HasBelow(store, user, CACERTS)
    requires IsDir(dir) && FileKey(user, dir, "x") in store
    ensures Servable(store, kv, user)
  {
    forall d | IsDir(d) ensures DirServable(store, kv, user, d) {
      DirsPlain(d);
      ListedIff(store, kv, user, d);
      ContentReadable(store, kv, user, d);
    }
    DirsPlain(dir);
    DirFilesAt(store, kv, user, dir, "x");
    assert dir + "/" + "x" in View(store, kv, user);
  }

  lemma NotServable(store: Store, kv: string, user: string, dir: string)
    requires Contained(user) && IsDir(dir) && !HasBelow(store, user, dir)
    ensures !Servable(store, kv, user)
  {
    DirsPlain(dir);
    ListedIff(store, kv, user, dir);
  }

  lemma SampleBelow(store: Store, user: string, dir: string)
    requires IsDir(dir) && FileKey(user, dir, "x") in store
    ensures HasBelow(store, user, dir)
  {
    assert At(user, dir) < FileKey(user, dir, "x");
  }

  /** The sample with one more secret below the directory that was left out is served. */
  lemma SampleServable(store: Store, kv: string, user: string, dir: string, key: Key)
    requires StorePlain(store) && AllContent(store) && Contained(user) && IsDir(dir)
    requires key in store && At(user, dir) < key && forall k <- SampleBut(user, dir) :: k in store
    ensures Servable(store, kv, user)
  {
    var d := if dir == SIGNCERTS then KEYSTORE else SIGNCERTS;
    forall e | IsDir(e) ensures HasBelow(store, user, e) {
      if e != dir {
        OtherInSample(user, dir, e);
        SampleBelow(store, user, e);
      }
    }
    OtherInSample(user, dir, d);
    ContentServable(store, kv, user, d);
  }

  lemma OtherInSample(user: string, dir: string, d: string)
    requires IsDir(d) && d != dir
    ensures FileKey(user, d, "x") in SampleBut(user, dir)
  {
    if FileKey(user, d, "x") == FileKey(user, dir, "x") {
      AtInjective(user, d, ["x"], dir, ["x"]);
    }
  }

  /** The revocation key is in the answer exactly if it can be read. */
  lemma KeyInView(store: Store, kv: string, user: string)
    ensures REVOCATION_KEY in View(store, kv, user) <==> FileText(store, kv, user, REVOCATION_KEY).Some?
  {
    DirFileNames(store, kv, user, SIGNCERTS);
    DirFileNames(store, kv, user, KEYSTORE);
    DirFileNames(store, kv, user, CACERTS);
    assert REVOCATION_KEY[0] == 'I' && SIGNCERTS[0] == 's' && KEYSTORE[0] == 'k' && CACERTS[0] == 'c';
  }

  lemma KeyChanges(s: Store, s': Store, kv: string, user: string)
    requires Servable(s, kv, user)
    requires FileText(s, kv, user, REVOCATION_KEY).Some? <==> FileText(s', kv, user, REVOCATION_KEY).None?
    ensures !SameAnswer(s, s', kv, user)
  {
    KeyInView(s, kv, user);
    KeyInView(s', kv, user);
  }

  lemma SampleServed(store: Store, kv: string, user: string)
    requires StorePlain(store) && AllContent(store) && Contained(user) && forall k <- Sample(user) :: k in store
    ensures Servable(store, kv, user)
  {
    assert At(user, SIGNCERTS) < FileKey(user, SIGNCERTS, "x");
    SampleServable(store, kv, user, SIGNCERTS, FileKey(user, SIGNCERTS, "x"));
  }

  lemma {:induction false} PutAllContent(store: Store, kv: string, u: string, ws: seq<Write>)
    requires AllContent(store)
    ensures AllContent(PutAll(store, kv, u, ws))
    decreases |ws|
  {
    if ws != [] {
      PutAllContent(Put(store, kv, u, ws[0]), kv, u, ws[1..]);
    }
  }

  lemma PutAllKeeps(store: Store, kv: string, u: string, ws: seq<Write>, key: Key)
    requires key in store || exists w <- ws :: Storable(kv, u, w) && FileTarget(kv, u, w.rest).key == key
    ensures key in PutAll(store, kv, u, ws)
  {
    PutAllAt(store, kv, u, ws, key);
    if w :| w in ws && Storable(kv, u, w) && FileTarget(kv, u, w.rest).key == key {
      LastWriteSome(kv, u, ws, w);
    }
  }

  lemma NoKeyInSample(kv: string, user: string)
    requires Contained(user)
    ensures At(user, REVOCATION_KEY) !in Sample(user) && FileText(Sample(user), kv, user, REVOCATION_KEY).None?
  {
    KeyRoute(kv, user);
    forall k | k in Sample(user) ensures |k| == |At(user, REVOCATION_KEY)| + 1 {
      var d := SampleKeys(user, k);
    }
  }

  lemma SaveChanges(kv: string, c: Call, w: Write, user: string) returns (store: Store)
    requires CallValid(c) && c.Save? && Contained(user) && w in Plan(c.msp)[..c.landed] && Hits(kv, c.user, w, user)
    ensures StorePlain(store) && !SameAnswer(store, Effect(store, kv, c), kv, user)
  {
    var ws, key := Plan(c.msp)[..c.landed], FileTarget(kv, c.user, w.rest).key;
    if key == At(user, REVOCATION_KEY) {
      store := Sample(user);
      SampleOk(user, SIGNCERTS);
      SampleServed(store, kv, user);
      NoKeyInSample(kv, user);
      KeyRoute(kv, user);
      PutAllKeeps(store, kv, c.user, ws, key);
      PutAllContent(store, kv, c.user, ws);
      KeyChanges(store, Effect(store, kv, c), kv, user);
    } else {
      var dir := DirAbove(user, key);
      store := SampleBut(user, dir);
      SampleOk(user, dir);
      forall k | k in store ensures !(At(user, dir) < k) {
        NothingBelow(user, dir, k);
      }
      NotServable(store, kv, user, dir);
      PutAllPlain(store, kv, c.user, ws);
      PutAllContent(store, kv, c.user, ws);
      PutAllKeeps(store, kv, c.user, ws, key);
      forall k | k in store ensures k in Effect(store, kv, c) {
        PutAllKeeps(store, kv, c.user, ws, k);
      }
      SampleServable(Effect(store, kv, c), kv, user, dir, key);
    }
  }

  lemma OneMore(store: Store, key: Key)
    requires StorePlain(store) && AllContent(store) && AllPlain(key)
    ensures StorePlain(store[key := Content("")]) && AllContent(store[key := Content("")])
  {
  }

  /** A user that is served with its key, and then without it, or with it emptied. */
  lemma KeyGone(before: Store, after: Store, kv: string, user: string)
    requires Contained(user) && Servable(before, kv, user)
    requires At(user, REVOCATION_KEY) in before && before[At(user, REVOCATION_KEY)].Content?
    requires At(user, REVOCATION_KEY) !in after || after[At(user, REVOCATION_KEY)] == NoData
    ensures !SameAnswer(before, after, kv, user)
  {
    KeyRoute(kv, user);
    KeyChanges(before, after, kv, user);
  }

  lemma SampleWithKey(kv: string, user: string) returns (store: Store)
    requires Contained(user)
    ensures StorePlain(store) && Servable(store, kv, user)
    ensures At(user, REVOCATION_KEY) in store && store[At(user, REVOCATION_KEY)].Content?
  {
    store := Sample(user)[At(user, REVOCATION_KEY) := Content("")];
    SampleOk(user, SIGNCERTS);
    HomePlain(user);
    assert Plain(REVOCATION_KEY);
    OneMore(Sample(user), At(user, REVOCATION_KEY));
    SampleServed(store, kv, user);
  }

  /** The sample with one directory's only secret, and without it, or with it emptied where it is
      read. */
  lemma FileGone(before: Store, after: Store, kv: string, user: string, dir: string, key: Key)
    requires Contained(user) && IsDir(dir) && At(user, dir) < key && AllPlain(key)
    requires before == SampleBut(user, dir)[key := Content("")]
    requires after == before - {key} || (after == before[key := NoData] && |key| == |At(user, dir)| + 1)
    ensures StorePlain(before) && !SameAnswer(before, after, kv, user)
  {
    SampleOk(user, dir);
    OneMore(SampleBut(user, dir), key);
    SampleServable(before, kv, user, dir, key);
    if key in after {
      EmptiedNotServable(after, kv, user, dir, key);
    } else {
      forall k | k in after ensures !(At(user, dir) < k) {
        NothingBelow(user, dir, k);
      }
      NotServable(after, kv, user, dir);
    }
  }

  lemma RemoveChanges(kv: string, u: string, user: string) returns (store: Store)
    requires Contained(user) && Disturbs(kv, Remove(u), user)
    ensures StorePlain(store) && !SameAnswer(store, Effect(store, kv, Remove(u)), kv, user)
  {
    var key := Route(Clean(kv), UserPath(kv, u)).key;
    CleanPlain(UserPath(kv, u));
    if key == At(user, REVOCATION_KEY) {
      store := SampleWithKey(kv, user);
      KeyGone(store, Effect(store, kv, Remove(u)), kv, user);
    } else {
      var dir := DirAbove(user, key);
      store := SampleBut(user, dir)[key := Content("")];
      FileGone(store, Effect(store, kv, Remove(u)), kv, user, dir, key);
    }
  }

  /** A file that is listed and has no data spoils the answer. */
  lemma EmptiedNotServable(store: Store, kv: string, user: string, dir: string, key: Key)
    requires Contained(user) && IsDir(dir) && At(user, dir) < key && |key| == |At(user, dir)| + 1 && AllPlain(key)
    requires key in store && store[key] == NoData
    ensures !Servable(store, kv, user)
  {
    var f := key[|At(user, dir)|];
    assert f in key && key == FileKey(user, dir, f);
    DirsPlain(dir);
    ListedFile(store, kv, user, dir, f);
  }

  /** A call can change the answer of a user, in some store, exactly if it disturbs it. */
  lemma DisturbsIff(kv: string, c: Call, user: string)
    requires CallValid(c) && Contained(user)
    ensures (exists store :: StorePlain(store) && !SameAnswer(store, Effect(store, kv, c), kv, user))
      <==> Disturbs(kv, c, user)
  {
    if Disturbs(kv, c, user) {
      if c.Save? {
        var w :| w in Plan(c.msp)[..c.landed] && Hits(kv, c.user, w, user);
        var store := SaveChanges(kv, c, w, user);
      } else {
        var store := RemoveChanges(kv, c.user, user);
      }
    } else {
      forall store | StorePlain(store) ensures SameAnswer(store, Effect(store, kv, c), kv, user) {
        EffectElsewhere(store, kv, c, user);
        SeenDecides(store, Effect(store, kv, c), kv, user);
      }
    }
  }
}
