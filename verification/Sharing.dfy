/** Which user names can name the same secret, and so change each other's answers. */
module Sharing {
  import opened Text
  import opened Base64
  import opened Paths
  import opened VaultEngine
  import opened MspTree
  import opened VaultRepository
  import opened VaultServices
  import opened MspProperties
  import opened MspIsolation

  /** A path StoreUserMSP can write a file under, below its user. */
  ghost predicate IsFile(rest: string) {
    rest == REVOCATION_KEY || exists dir, names :: IsDir(dir) && AllPlain(names) && rest == Rest(dir, names)
  }

  predicate SameSecret(kv: string, u: string, r: string, u': string, r': string) {
    FileTarget(kv, u, r).Data? && FileTarget(kv, u, r) == FileTarget(kv, u', r')
  }

  /** Two user names that can name the same secret. */
  ghost predicate Share(kv: string, u: string, u': string) {
    exists r, r' :: IsFile(r) && IsFile(r') && SameSecret(kv, u, r, u', r')
  }

  lemma PlanFiles(msp: Msp, w: Write)
    requires MspWellFormed(msp) && w in Plan(msp)
    ensures IsFile(w.rest)
  {
    PlanParts(msp, w);
    if w !in KeyWrite(msp) {
      var d :| IsDir(d) && w in Writes(d, Visits(NodeOf(msp, d), []));
      DirPlain(msp, d);
      VisitsPlain(NodeOf(msp, d));
      var visits := Visits(NodeOf(msp, d), []);
      var i :| 0 <= i < |visits| && w == Write(Rest(d, visits[i].names), visits[i].content);
      assert visits[i] in visits;
      assert IsDir(d) && AllPlain(visits[i].names) && w.rest == Rest(d, visits[i].names);
    }
  }

  lemma BelowIsFile(kv: string, user: string, dir: string, key: Key) returns (r: string)
    requires Contained(user) && IsDir(dir) && At(user, dir) <= key && AllPlain(key)
    ensures IsFile(r) && FileTarget(kv, user, r) == Data(key)
  {
    var names := key[|At(user, dir)|..];
    assert key == At(user, dir) + names;
    assert AllPlain(names) by {
      assert forall n <- names :: n in key;
    }
    r := Rest(dir, names);
    FileRoute(kv, user, dir, names);
  }

  /** Every key a contained user sees is that of one of its own files. */
  lemma SeenIsFile(kv: string, user: string, key: Key) returns (r: string)
    requires Contained(user) && Sees(user, key) && AllPlain(key)
    ensures IsFile(r) && FileTarget(kv, user, r) == Data(key)
  {
    if key == At(user, REVOCATION_KEY) {
      r := REVOCATION_KEY;
      KeyRoute(kv, user);
    } else {
      var dir := DirAbove(user, key);
      r := BelowIsFile(kv, user, dir, key);
    }
  }

  lemma TargetPlain(kv: string, u: string, rest: string)
    ensures FileTarget(kv, u, rest).Data? ==> AllPlain(FileTarget(kv, u, rest).key)
  {
    CleanPlain(DataPath(kv, u, rest));
  }

  /** Where the files of any user name go, from the top of the server down. */
  function Ground(kv: string, user: string): Key {
    Base(Clean(kv), "data", user)
  }

  /** One of the three directories of a place leads to, or past, another. */
  predicate Enters(p: Key, q: Key) {
    p + [SIGNCERTS] <= q || p + [KEYSTORE] <= q || p + [CACERTS] <= q
  }

  predicate Meets(p: Key, q: Key) {
    p == q || Enters(p, q) || Enters(q, p)
  }

  /** Whether any file of the user is within the engine's data at all. */
  predicate Writable(kv: string, user: string) {
    Clean(kv) + ["data"] <= Ground(kv, user) || Enters(Ground(kv, user), Clean(kv) + ["data"])
  }

  /** What a file's path adds to its user's place. */
  predicate IsTail(t: Key) {
    t == [REVOCATION_KEY] || (t != [] && IsDir(t[0]) && AllPlain(t))
  }

  lemma NamesPlain()
    ensures Plain(REVOCATION_KEY) && Plain(SIGNCERTS) && Plain(KEYSTORE) && Plain(CACERTS)
    ensures !IsDir(REVOCATION_KEY)
  {
    assert REVOCATION_KEY[0] == 'I' && SIGNCERTS[0] == 's' && KEYSTORE[0] == 'k' && CACERTS[0] == 'c';
  }

  lemma FileTail(r: string) returns (t: Key)
    requires IsFile(r)
    ensures IsTail(t)
    ensures forall kv, u :: Clean(DataPath(kv, u, r)) == Ground(kv, u) + t
  {
    NamesPlain();
    if r == REVOCATION_KEY {
      t := [r];
      forall kv, u ensures Clean(DataPath(kv, u, r)) == Ground(kv, u) + t {
        NameClean(kv, u, r);
      }
    } else {
      var dir, names :| IsDir(dir) && AllPlain(names) && r == Rest(dir, names);
      t := [dir] + names;
      forall kv, u ensures Clean(DataPath(kv, u, r)) == Ground(kv, u) + t {
        FileClean(kv, u, dir, names);
      }
    }
  }

  lemma TailFile(t: Key) returns (r: string)
    requires IsTail(t)
    ensures IsFile(r)
    ensures forall kv, u :: Clean(DataPath(kv, u, r)) == Ground(kv, u) + t
  {
    NamesPlain();
    if t == [REVOCATION_KEY] {
      r := REVOCATION_KEY;
      forall kv, u ensures Clean(DataPath(kv, u, r)) == Ground(kv, u) + t {
        NameClean(kv, u, r);
      }
    } else {
      r := Rest(t[0], t[1..]);
      assert AllPlain(t[1..]);
      forall kv, u ensures Clean(DataPath(kv, u, r)) == Ground(kv, u) + t {
        FileClean(kv, u, t[0], t[1..]);
        assert [t[0]] + t[1..] == t;
      }
    }
  }

  lemma Routed(mount: Key, path: string)
    requires Route(mount, path).Data?
    ensures Route(mount, path).key != [] && Clean(path) == mount + ["data"] + Route(mount, path).key
  {
    var full := Clean(path);
    assert full == full[..|mount|] + [full[|mount|]] + full[|mount| + 1..];
  }

  /** A place and one of its files' paths, against a place the path runs through. */
  lemma RunsThrough(p: Key, t: Key, q: Key, rest: Key)
    requires IsTail(t) && p + t == q + rest && rest != []
    ensures q <= p || Enters(p, q)
  {
    var full := p + t;
    if |q| <= |p| {
      assert q == full[..|q|] == p[..|q|];
    } else {
      assert |t| > 1 && t[0] == full[|p|] == q[|p|];
      assert q[..|p|] == full[..|p|] == p;
      assert p + [t[0]] == q[..|p| + 1];
    }
  }

  lemma SharedMeet(kv: string, u: string, u': string)
    requires Share(kv, u, u')
    ensures Meets(Ground(kv, u), Ground(kv, u')) && Writable(kv, u) && Writable(kv, u')
  {
    var r, r' :| IsFile(r) && IsFile(r') && SameSecret(kv, u, r, u', r');
    var t := FileTail(r);
    var t' := FileTail(r');
    var p, p', base := Ground(kv, u), Ground(kv, u'), Clean(kv) + ["data"];
    Routed(Clean(kv), DataPath(kv, u, r));
    Routed(Clean(kv), DataPath(kv, u', r'));
    var key := FileTarget(kv, u, r).key;
    assert p + t == base + key && p' + t' == base + key;
    RunsThrough(p, t, base, key);
    RunsThrough(p', t', base, key);
    RunsThrough(p, t, p', t');
    RunsThrough(p', t', p, t);
  }

  lemma GroundPlain(kv: string, user: string)
    ensures AllPlain(Ground(kv, user)) && AllPlain(Clean(kv) + ["data"])
  {
    RootClean(kv, "data", user);
    CleanPlain(UserRoot(kv, "data", user));
    CleanPlain(kv);
  }

  /** The rest of the way from a place through one of its directories. */
  lemma WayOn(p: Key, q: Key, rest: Key) returns (t: Key)
    requires Enters(p, q) && AllPlain(q) && AllPlain(rest)
    ensures IsTail(t) && p + t == q + rest
  {
    t := q[|p|..] + rest;
    assert p + [q[|p|]] == q[..|p| + 1];
    assert p == q[..|p|];
    assert forall c <- q[|p|..] :: c in q;
  }

  lemma WritableTail(kv: string, user: string) returns (t: Key)
    requires Writable(kv, user)
    ensures IsTail(t) && AllPlain(t) && exists key :: key != [] && Ground(kv, user) + t == Clean(kv) + ["data"] + key
  {
    var p, base := Ground(kv, user), Clean(kv) + ["data"];
    NamesPlain();
    GroundPlain(kv, user);
    var key: Key;
    if base <= p {
      t, key := [REVOCATION_KEY], p[|base|..] + [REVOCATION_KEY];
      assert p == base + p[|base|..];
    } else {
      key := ["x"];
      t := WayOn(p, base, key);
    }
    assert key != [] && p + t == base + key;
  }

  lemma SameFile(kv: string, u: string, t: Key, u': string, t': Key)
    requires IsTail(t) && IsTail(t') && Ground(kv, u) + t == Ground(kv, u') + t'
    requires exists key :: key != [] && Ground(kv, u') + t' == Clean(kv) + ["data"] + key
    ensures Share(kv, u, u') && Share(kv, u', u)
  {
    var key :| key != [] && Ground(kv, u') + t' == Clean(kv) + ["data"] + key;
    var r := TailFile(t);
    var r' := TailFile(t');
    RouteOf(Clean(kv), DataPath(kv, u, r), "data", key);
    RouteOf(Clean(kv), DataPath(kv, u', r'), "data", key);
    assert SameSecret(kv, u, r, u', r') && SameSecret(kv, u', r', u, r);
  }

  lemma EnteredShare(kv: string, u: string, u': string)
    requires Enters(Ground(kv, u), Ground(kv, u')) && Writable(kv, u')
    ensures Share(kv, u, u') && Share(kv, u', u)
  {
    GroundPlain(kv, u');
    var t' := WritableTail(kv, u');
    var t := WayOn(Ground(kv, u), Ground(kv, u'), t');
    SameFile(kv, u, t, u', t');
  }

  /** For all user names: two can name the same secret exactly when their places are one, or one
      of the three directories of one leads into the other, and both have files in the engine. */
  lemma ShareIff(kv: string, u: string, u': string)
    ensures Share(kv, u, u') <==> Meets(Ground(kv, u), Ground(kv, u')) && Writable(kv, u) && Writable(kv, u')
  {
    if Share(kv, u, u') {
      SharedMeet(kv, u, u');
    }
    if Meets(Ground(kv, u), Ground(kv, u')) && Writable(kv, u) && Writable(kv, u') {
      if Ground(kv, u) == Ground(kv, u') {
        var t := WritableTail(kv, u);
        SameFile(kv, u, t, u', t);
      } else if Enters(Ground(kv, u), Ground(kv, u')) {
        EnteredShare(kv, u, u');
      } else {
        EnteredShare(kv, u', u);
      }
    }
  }

  // ---- user names without a slash ---------------------------------------------------------------

  predicate Nowhere(u: string) {
    u == "" || u == "."
  }

  lemma PushSingle(stack: Key, c: string)
    ensures Push(stack, [c]) ==
      if Nowhere(c) then stack
      else if c == ".." then (if stack == [] then [] else stack[..|stack| - 1])
      else stack + [c]
  {
    var one: seq<string> := [c];
    assert one[1..] == [];
  }

  lemma GroundOf(kv: string, u: string)
    requires '/' !in u
    ensures Ground(kv, u) ==
      if Nowhere(u) then Clean(kv) + ["data", "users"]
      else if u == ".." then Clean(kv) + ["data"]
      else Clean(kv) + ["data", "users", u]
  {
    var top := Clean(kv) + ["data", "users"];
    SplitFree(u, '/');
    PushSingle(top, u);
    assert top[..|top| - 1] == Clean(kv) + ["data"];
    assert top + [u] == Clean(kv) + ["data", "users", u];
  }

  /** Two places below the same one. */
  lemma MeetsBelow(base: Key, a: Key, b: Key)
    ensures Meets(base + a, base + b) <==> Meets(a, b)
  {
    EntersBelow(base, a, b);
    EntersBelow(base, b, a);
    if base + a == base + b {
      assert a == (base + a)[|base|..] && b == (base + b)[|base|..];
    }
  }

  lemma EntersBelow(base: Key, a: Key, b: Key)
    ensures Enters(base + a, base + b) <==> Enters(a, b)
  {
    PrefixBelow(base, a, SIGNCERTS, b);
    PrefixBelow(base, a, KEYSTORE, b);
    PrefixBelow(base, a, CACERTS, b);
  }

  lemma PrefixBelow(base: Key, a: Key, d: string, b: Key)
    ensures base + a + [d] <= base + b <==> a + [d] <= b
  {
    assert base + a + [d] == base + (a + [d]);
    if base + (a + [d]) <= base + b {
      assert (base + b)[|base|..|base + (a + [d])|] == b[..|a + [d]|];
      assert (base + (a + [d]))[|base|..] == a + [d];
    }
  }

  function Way(u: string): Key {
    if Nowhere(u) then ["users"] else if u == ".." then [] else ["users", u]
  }

  lemma WayInto(u: string, d: string, u': string)
    requires IsDir(d)
    ensures Way(u) + [d] <= Way(u') <==> Nowhere(u) && u' == d
  {
    assert "users"[0] == 'u' && SIGNCERTS[0] == 's' && KEYSTORE[0] == 'k' && CACERTS[0] == 'c';
    assert !Nowhere(d) && d != "..";
    var w := Way(u) + [d];
    if Nowhere(u) {
      assert w[0] == "users" && w[1] == d && |w| == 2;
      if u' == d {
        assert w == Way(u');
      }
    } else if u == ".." {
      assert w[0] == d;
    } else {
      assert |w| == 3;
    }
  }

  lemma WaysMeet(u: string, u': string)
    ensures Meets(Way(u), Way(u'))
      <==> u == u' || (Nowhere(u) && (Nowhere(u') || IsDir(u'))) || (Nowhere(u') && IsDir(u))
  {
    WayInto(u, SIGNCERTS, u');
    WayInto(u, KEYSTORE, u');
    WayInto(u, CACERTS, u');
    WayInto(u', SIGNCERTS, u);
    WayInto(u', KEYSTORE, u);
    WayInto(u', CACERTS, u);
    SameWay(u, u');
  }

  lemma SameWay(u: string, u': string)
    ensures Way(u) == Way(u') <==> u == u' || (Nowhere(u) && Nowhere(u'))
  {
    if |Way(u)| == 2 && |Way(u')| == 2 {
      assert Way(u)[1] == u && Way(u')[1] == u';
    }
  }

  lemma GroundWay(kv: string, u: string)
    requires '/' !in u
    ensures Ground(kv, u) == Clean(kv) + ["data"] + Way(u)
  {
    GroundOf(kv, u);
    assert Clean(kv) + ["data"] + ["users"] == Clean(kv) + ["data", "users"];
    assert Clean(kv) + ["data"] + ["users", u] == Clean(kv) + ["data", "users", u];
    assert Clean(kv) + ["data"] + [] == Clean(kv) + ["data"];
  }

  /** Two different names without a slash share a secret exactly when both are empty or ".", or one
      is and the other is the name of one of the three directories. */
  lemma SlashFreeShareIff(kv: string, u: string, u': string)
    requires '/' !in u && '/' !in u'
    ensures Share(kv, u, u') <==> u == u' || (Nowhere(u) && (Nowhere(u') || IsDir(u'))) || (Nowhere(u') && IsDir(u))
  {
    ShareIff(kv, u, u');
    GroundWay(kv, u);
    GroundWay(kv, u');
    WaysMeet(u, u');
    MeetsBelow(Clean(kv) + ["data"], Way(u), Way(u'));
  }

  /** For ordinary names composed paths are injective: one secret means one user, directory and file. */
  lemma PathsInjective(kv: string, u: string, d: string, ns: seq<string>, u': string, d': string, ns': seq<string>)
    requires Plain(u) && Plain(u') && IsDir(d) && IsDir(d') && AllPlain(ns) && AllPlain(ns')
    requires FileTarget(kv, u, Rest(d, ns)) == FileTarget(kv, u', Rest(d', ns'))
    ensures u == u' && d == d' && ns == ns'
  {
    NamesPlain();
    PlainHome(u);
    PlainHome(u');
    FileRoute(kv, u, d, ns);
    FileRoute(kv, u', d', ns');
    assert IsFile(Rest(d, ns)) && IsFile(Rest(d', ns')) && SameSecret(kv, u, Rest(d, ns), u', Rest(d', ns'));
    SlashFreeShareIff(kv, u, u');
    AtInjective(u, d, ns, d', ns');
  }

  // ---- stores that change another user's answer -------------------------------------------------

  /** A tree of one file. */
  function OneFile(names: seq<string>, content: seq<byte>): Node {
    if names == [] then File(content) else Dir([Entry(names[0], OneFile(names[1..], content))])
  }

  lemma {:induction false} OneFileVisit(names: seq<string>, content: seq<byte>, above: seq<string>)
    requires AllPlain(names)
    ensures WellFormed(OneFile(names, content))
    ensures Visits(OneFile(names, content), above) == [Visit(above + names, Some(content))]
    decreases |names|
  {
    if names == [] {
      assert above + names == above;
    } else {
      assert AllPlain(names[1..]) && Plain(names[0]);
      var e := Entry(names[0], OneFile(names[1..], content));
      OneFileVisit(names[1..], content, above + [names[0]]);
      assert above + [names[0]] + names[1..] == above + names;
      assert VisitsAll([e], above) == Visits(e.node, above + [e.name]) + VisitsAll([e][1..], above);
    }
  }

  /** For every file there is an MSP that holds nothing else. */
  lemma OneWrite(r: string) returns (msp: Msp)
    requires IsFile(r)
    ensures MspWellFormed(msp) && Plan(msp) == [Write(r, Some([]))]
  {
    var none := Dir([]);
    if r == REVOCATION_KEY {
      msp := Msp(Some([]), none, none, none);
    } else {
      var dir, names :| IsDir(dir) && AllPlain(names) && r == Rest(dir, names);
      var tree := OneFile(names, []);
      OneFileVisit(names, [], []);
      assert [] + names == names;
      assert Writes(dir, Visits(tree, [])) == [Write(r, Some([]))];
      msp := Msp(None, if dir == SIGNCERTS then tree else none, if dir == KEYSTORE then tree else none,
                 if dir == CACERTS then tree else none);
    }
  }

  /** Where a contained user looks, from the top of the server down. */
  lemma Landing(kv: string, u: string, t: Key, user: string, rest: Key) returns (r: string)
    requires Contained(user) && IsTail(t) && Ground(kv, u) + t == Ground(kv, user) + rest && rest != []
    ensures IsFile(r) && FileTarget(kv, u, r) == Data(Home(user) + rest)
  {
    r := TailFile(t);
    BaseContained(Clean(kv), "data", user);
    Regrouped(Clean(kv), "data", Home(user), rest);
    RouteOf(Clean(kv), DataPath(kv, u, r), "data", Home(user) + rest);
  }

  lemma SeenBelow(user: string, d: string, rest: Key)
    requires IsDir(d) && rest != [] && rest[0] == d && |rest| >= 2
    ensures Sees(user, Home(user) + rest)
  {
    assert At(user, d) < Home(user) + rest by {
      assert (Home(user) + rest)[..|Home(user)| + 1] == At(user, d);
    }
  }

  lemma OuterHit(kv: string, u: string, user: string) returns (r: string)
    requires Contained(user) && Enters(Ground(kv, u), Ground(kv, user))
    ensures IsFile(r) && FileTarget(kv, u, r) == Data(At(user, REVOCATION_KEY))
  {
    NamesPlain();
    GroundPlain(kv, user);
    var t := WayOn(Ground(kv, u), Ground(kv, user), [REVOCATION_KEY]);
    r := Landing(kv, u, t, user, [REVOCATION_KEY]);
  }

  lemma WayIn(q: Key, p: Key, end: Key) returns (rest: Key)
    requires Enters(q, p) && end != []
    ensures |rest| >= 2 && IsDir(rest[0]) && p + end == q + rest
  {
    rest := p[|q|..] + end;
    assert q + [p[|q|]] == p[..|q| + 1];
    assert q == p[..|q|];
  }

  lemma InnerHit(kv: string, u: string, user: string) returns (r: string)
    requires Contained(user) && Enters(Ground(kv, user), Ground(kv, u))
    ensures IsFile(r) && FileTarget(kv, u, r).Data? && Sees(user, FileTarget(kv, u, r).key)
  {
    var rest := WayIn(Ground(kv, user), Ground(kv, u), [REVOCATION_KEY]);
    r := Landing(kv, u, [REVOCATION_KEY], user, rest);
    SeenBelow(user, rest[0], rest);
  }

  /** A name that shares a secret with a user has a file that lands where the user looks. */
  lemma SharedHit(kv: string, u: string, user: string) returns (r: string)
    requires Contained(user) && Share(kv, u, user)
    ensures IsFile(r) && FileTarget(kv, u, r).Data? && Sees(user, FileTarget(kv, u, r).key)
  {
    SharedMeet(kv, u, user);
    if Ground(kv, u) == Ground(kv, user) {
      r := Landing(kv, u, [REVOCATION_KEY], user, [REVOCATION_KEY]);
    } else if Enters(Ground(kv, u), Ground(kv, user)) {
      r := OuterHit(kv, u, user);
    } else {
      r := InnerHit(kv, u, user);
    }
  }

  lemma HitShares(kv: string, u: string, msp: Msp, w: Write, user: string)
    requires Contained(user) && MspWellFormed(msp) && w in Plan(msp) && Hits(kv, u, w, user)
    ensures Share(kv, u, user)
  {
    var key := FileTarget(kv, u, w.rest).key;
    PlanFiles(msp, w);
    TargetPlain(kv, u, w.rest);
    var r := SeenIsFile(kv, user, key);
    assert SameSecret(kv, u, w.rest, user, r);
  }

  /** A store for one name can change the answer of a user, with some MSP in some store, exactly if
      the two names can name the same secret. */
  lemma StoreDisturbsIff(kv: string, u: string, user: string)
    requires Contained(user)
    ensures (exists store, c :: StorePlain(store) && CallValid(c) && c.Save? && c.user == u
                             && !SameAnswer(store, Effect(store, kv, c), kv, user))
      <==> Share(kv, u, user)
  {
    if Share(kv, u, user) {
      var r := SharedHit(kv, u, user);
      var msp := OneWrite(r);
      var c := Save(u, msp, 1);
      assert Plan(msp)[..1] == [Write(r, Some([]))];
      assert Hits(kv, u, Plan(msp)[..1][0], user);
      DisturbsIff(kv, c, user);
      var store :| StorePlain(store) && !SameAnswer(store, Effect(store, kv, c), kv, user);
    } else {
      forall store, c | StorePlain(store) && CallValid(c) && c.Save? && c.user == u
        ensures SameAnswer(store, Effect(store, kv, c), kv, user)
      {
        NoShareUndisturbed(kv, c, user);
        DisturbsIff(kv, c, user);
      }
    }
  }

  lemma NoShareUndisturbed(kv: string, c: Call, user: string)
    requires Contained(user) && CallValid(c) && c.Save? && !Share(kv, c.user, user)
    ensures !Disturbs(kv, c, user)
  {
    forall w | w in Plan(c.msp)[..c.landed] ensures !Hits(kv, c.user, w, user) {
      if Hits(kv, c.user, w, user) {
        HitShares(kv, c.user, c.msp, w, user);
      }
    }
  }

  /** So calls for ordinary names never disturb each other. */
  lemma PlainUndisturbed(kv: string, c: Call, user: string)
    requires Plain(user) && Plain(c.user) && CallValid(c) && (c.Save? ==> c.user != user)
    ensures Contained(user) && !Disturbs(kv, c, user)
  {
    PlainHome(user);
    PlainHome(c.user);
    if c.Save? {
      SlashFreeShareIff(kv, c.user, user);
      NoShareUndisturbed(kv, c, user);
    } else {
      UserRoute(kv, c.user);
      NamesPlain();
    }
  }

  // ---- names that do share ----------------------------------------------------------------------

  /** A name with one more step. */
  lemma OneMoreStep(kv: string, a: string, b: string)
    requires '/' !in b
    ensures Ground(kv, a + "/" + b) == Push(Ground(kv, a), [b])
  {
    SplitConcat(a, b, '/');
    SplitFree(b, '/');
    PushConcat(Clean(kv) + ["data", "users"], Split(a, '/'), [b]);
  }

  /** Every name that has files in the engine at all shares them with some other name. */
  lemma SharesIff(kv: string, u: string)
    ensures (exists u' :: u' != u && Share(kv, u, u')) <==> Writable(kv, u)
  {
    var other := u + "/.";
    OneMoreStep(kv, u, ".");
    assert u + "/" + "." == other && |other| > |u|;
    PushSingle(Ground(kv, u), ".");
    ShareIff(kv, u, other);
    forall u' | Share(kv, u, u') ensures Writable(kv, u) {
      ShareIff(kv, u, u');
    }
  }

  lemma GroundWritable(kv: string, u: string)
    requires '/' !in u
    ensures Clean(kv) + ["data"] <= Ground(kv, u) && Writable(kv, u)
  {
    GroundWay(kv, u);
  }

  lemma SlashedShare(kv: string, u: string, d: string)
    requires Plain(u) && IsDir(d)
    ensures Share(kv, u, u + "/" + d)
  {
    var p, q := Ground(kv, u), Ground(kv, u + "/" + d);
    NamesPlain();
    OneMoreStep(kv, u, d);
    PushSingle(p, d);
    assert !Nowhere(d) && d != "..";
    assert q == p + [d];
    assert Enters(p, q);
    GroundWritable(kv, u);
    assert Clean(kv) + ["data"] <= q;
    ShareIff(kv, u, u + "/" + d);
  }

  /** Some names share with an ordinary one: "" and "." with the name of a directory, and a name
      that ends in a directory with the one before it. */
  lemma UnusualNamesShare(kv: string, u: string, d: string)
    requires Plain(u) && IsDir(d)
    ensures Share(kv, "", d) && Share(kv, ".", d)
    ensures Share(kv, u, u + "/" + d)
  {
    NamesPlain();
    SlashFreeShareIff(kv, "", d);
    SlashFreeShareIff(kv, ".", d);
    SlashedShare(kv, u, d);
  }

  const UP := "../../../.."

  function Steps(u: string, parts: seq<string>): string
    decreases |parts|
  {
    if parts == [] then u else Steps(u + "/" + parts[0], parts[1..])
  }

  lemma {:induction false} StepsGround(kv: string, u: string, parts: seq<string>)
    requires AllPlain(parts)
    ensures Ground(kv, Steps(u, parts)) == Ground(kv, u) + parts
    decreases |parts|
  {
    if parts == [] {
      assert Ground(kv, u) + parts == Ground(kv, u);
    } else {
      assert Plain(parts[0]) && AllPlain(parts[1..]);
      OneMoreStep(kv, u, parts[0]);
      PushSingle(Ground(kv, u), parts[0]);
      StepsGround(kv, u + "/" + parts[0], parts[1..]);
      assert Ground(kv, u) + [parts[0]] + parts[1..] == Ground(kv, u) + parts;
    }
  }

  lemma StepUp(kv: string, u: string)
    ensures Ground(kv, u + "/" + "..") == if Ground(kv, u) == [] then [] else Ground(kv, u)[..|Ground(kv, u)| - 1]
  {
    OneMoreStep(kv, u, "..");
    PushSingle(Ground(kv, u), "..");
  }

  lemma UpText()
    ensures UP == ".." + "/" + ".." + "/" + ".." + "/" + ".."
  {
  }

  lemma PlainClean(kv: string)
    requires Plain(kv)
    ensures Clean(kv) == [VERSION, kv]
  {
    PushOne([VERSION], kv);
  }

  /** Four steps up from an engine at the top lead out of the version prefix. */
  lemma UpGround(kv: string)
    requires Plain(kv)
    ensures Clean(kv) == [VERSION, kv] && Ground(kv, UP) == []
  {
    PlainClean(kv);
    GroundOf(kv, "..");
    UpText();
    StepUp(kv, "..");
    StepUp(kv, ".." + "/" + "..");
    StepUp(kv, ".." + "/" + ".." + "/" + "..");
    assert |Ground(kv, "..")| == 3;
  }

  lemma StepsFromTop(kv: string, parts: seq<string>)
    requires Plain(kv) && AllPlain(parts)
    ensures Ground(kv, Steps(UP, parts)) == parts
  {
    UpGround(kv);
    StepsGround(kv, UP, parts);
    assert [] + parts == parts;
  }

  lemma OrdinaryGround(kv: string, user: string)
    requires Plain(kv) && Plain(user)
    ensures Ground(kv, user) == [VERSION, kv, "data", "users", user] && Writable(kv, user)
  {
    UpGround(kv);
    GroundOf(kv, user);
    GroundWritable(kv, user);
    assert [VERSION, kv] + ["data", "users", user] == [VERSION, kv, "data", "users", user];
  }

  lemma WordsPlain()
    ensures Plain(VERSION) && Plain("data") && Plain("users")
  {
  }

  lemma BackThroughVersion(kv: string, user: string)
    requires Plain(kv) && Plain(user)
    ensures Share(kv, Steps(UP, [VERSION, kv, "data", "users", user]), user)
  {
    var u := Steps(UP, [VERSION, kv, "data", "users", user]);
    WordsPlain();
    OrdinaryGround(kv, user);
    StepsFromTop(kv, [VERSION, kv, "data", "users", user]);
    SamePlaceShares(kv, u, user);
  }

  lemma SamePlaceShares(kv: string, u: string, u': string)
    requires Ground(kv, u) == Ground(kv, u') && Writable(kv, u')
    ensures Share(kv, u, u')
  {
    ShareIff(kv, u, u');
  }

  lemma OutsideVersion(kv: string, user: string)
    requires Plain(kv) && Plain(user)
    ensures !Share(kv, Steps(UP, [kv, "data", "users", user]), user)
  {
    var u := Steps(UP, [kv, "data", "users", user]);
    WordsPlain();
    StepsFromTop(kv, [kv, "data", "users", user]);
    UpGround(kv);
    NotInEngine(kv, Ground(kv, u));
    NotWritable(kv, u, user);
  }

  lemma NotWritable(kv: string, u: string, u': string)
    requires !Writable(kv, u)
    ensures !Share(kv, u, u')
  {
    ShareIff(kv, u, u');
  }

  /** A name that climbs past the version prefix names a user's secrets if it goes down through the
      prefix again, and nothing in the engine if it does not. */
  lemma PastVersion(kv: string, user: string)
    requires Plain(kv) && Plain(user)
    ensures Share(kv, Steps(UP, [VERSION, kv, "data", "users", user]), user)
    ensures !Share(kv, Steps(UP, [kv, "data", "users", user]), user)
  {
    BackThroughVersion(kv, user);
    OutsideVersion(kv, user);
  }

  lemma NotInEngine(kv: string, out: Key)
    requires |out| == 4 && out[0] == kv && out[1] == "data"
    ensures !([VERSION, kv] + ["data"] <= out) && !Enters(out, [VERSION, kv] + ["data"])
  {
    var base := [VERSION, kv] + ["data"];
    assert base[0] == VERSION && base[1] == kv && "data"[0] == 'd' && VERSION[0] == 'v';
    assert |base| == 3;
  }
}
