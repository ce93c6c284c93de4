/** Request paths of the secret store. The client library puts the version prefix in front of every
    path and cleans the whole before it is sent: empty and "." components vanish, and ".." removes
    the component before it, be it the prefix itself. What names a secret is the list of components
    that is left. */
module Paths {
  import opened Text

  type Key = seq<string>

  /** An ordinary path component: cleaning leaves it alone. */
  predicate Plain(c: string) {
    c != "" && c != "." && c != ".." && '/' !in c
  }

  function Push(stack: Key, parts: seq<string>): Key
    decreases |parts|
  {
    if parts == [] then stack
    else if parts[0] == "" || parts[0] == "." then Push(stack, parts[1..])
    else if parts[0] == ".." then Push(if stack == [] then [] else stack[..|stack| - 1], parts[1..])
    else Push(stack + [parts[0]], parts[1..])
  }

  const VERSION := "v1"

  /** A request path as the server gets it. */
  function Clean(path: string): Key {
    Push([VERSION], Split(path, '/'))
  }

  /** The part of a request after the mount point: a secret, a listing of one, or neither. */
  datatype Target = Data(key: Key) | Meta(key: Key) | Other

  function Route(mount: Key, path: string): Target {
    var key := Clean(path);
    if !(mount < key) || |key| == |mount| + 1 then Other
    else if key[|mount|] == "data" then Data(key[|mount| + 1..])
    else if key[|mount|] == "metadata" then Meta(key[|mount| + 1..])
    else Other
  }

  /** The three path formats of the repository. */
  function DataPath(kv: string, user: string, rest: string): string {
    kv + "/data/users/" + user + "/" + rest
  }

  function ListPath(kv: string, user: string, dir: string): string {
    kv + "/metadata/users/" + user + "/" + dir
  }

  function UserPath(kv: string, user: string): string {
    kv + "/metadata/users/" + user
  }

  lemma {:induction false} PushConcat(stack: Key, a: seq<string>, b: seq<string>)
    ensures Push(stack, a + b) == Push(Push(stack, a), b)
    decreases |a|
  {
    if a == [] {
      assert a + b == b;
    } else {
      assert (a + b)[1..] == a[1..] + b;
      PushConcat(stack + [a[0]], a[1..], b);
      PushConcat(stack, a[1..], b);
      PushConcat(if stack == [] then [] else stack[..|stack| - 1], a[1..], b);
    }
  }

  lemma {:induction false} PushPlain(stack: Key, names: seq<string>)
    requires forall n <- names :: Plain(n)
    ensures Push(stack, names) == stack + names
    decreases |names|
  {
    if names != [] {
      assert Plain(names[0]) && forall n <- names[1..] :: n in names;
      PushPlain(stack + [names[0]], names[1..]);
      assert stack + [names[0]] + names[1..] == stack + names;
    } else {
      assert stack + names == stack;
    }
  }

  lemma CleanSlash(a: string, b: string)
    ensures Clean(a + "/" + b) == Push(Clean(a), Split(b, '/'))
  {
    SplitConcat(a, b, '/');
    PushConcat([VERSION], Split(a, '/'), Split(b, '/'));
  }

  lemma PushOne(stack: Key, c: string)
    requires Plain(c)
    ensures Push(stack, Split(c, '/')) == stack + [c]
  {
    SplitFree(c, '/');
    PushPlain(stack, [c]);
  }

  // ---- where a user name leads ----------------------------------------------------------------

  /** Whether components never climb above the last `depth` before them. */
  predicate Stays(depth: nat, parts: seq<string>)
    decreases |parts|
  {
    if parts == [] then true
    else if parts[0] == "" || parts[0] == "." then Stays(depth, parts[1..])
    else if parts[0] == ".." then depth > 0 && Stays(depth - 1, parts[1..])
    else Stays(depth + 1, parts[1..])
  }

  /** A user name that leads to a place within the engine's data, and the same place in its
      metadata: it may be empty, hold slashes, or even leave "users", but no more than that. */
  predicate Contained(user: string) {
    Stays(1, Split(user, '/'))
  }

  /** That place. */
  function Home(user: string): Key {
    Push(["users"], Split(user, '/'))
  }

  /** A directory or key of a contained user, and a file in a directory. */
  function At(user: string, name: string): Key {
    Home(user) + [name]
  }

  function FileKey(user: string, dir: string, f: string): Key {
    At(user, dir) + [f]
  }

  /** Keys of one user tell directory and file names apart. */
  lemma AtInjective(user: string, a: string, xs: Key, b: string, ys: Key)
    requires At(user, a) + xs == At(user, b) + ys
    ensures a == b && xs == ys
  {
    var h := |Home(user)|;
    assert (At(user, a) + xs)[h] == a && (At(user, b) + ys)[h] == b;
    assert (At(user, a) + xs)[h + 1..] == xs && (At(user, b) + ys)[h + 1..] == ys;
  }

  /** The place any user name leads to, from the top of the server down. */
  function Base(mount: Key, kind: string, user: string): Key {
    Push(mount + [kind, "users"], Split(user, '/'))
  }

  lemma {:induction false} PushAbove(base: Key, stack: Key, parts: seq<string>)
    requires Stays(|stack|, parts)
    ensures Push(base + stack, parts) == base + Push(stack, parts)
    decreases |parts|
  {
    if parts != [] {
      if parts[0] == "" || parts[0] == "." {
        PushAbove(base, stack, parts[1..]);
      } else if parts[0] == ".." {
        PushAbove(base, stack[..|stack| - 1], parts[1..]);
        assert (base + stack)[..|base + stack| - 1] == base + stack[..|stack| - 1];
      } else {
        PushAbove(base, stack + [parts[0]], parts[1..]);
        assert base + stack + [parts[0]] == base + (stack + [parts[0]]);
      }
    }
  }

  /** A name that climbs out forgets what it climbed out of. */
  lemma {:induction false} PushBeyond(base: Key, kind: string, kind': string, stack: Key, parts: seq<string>)
    requires !Stays(|stack|, parts)
    ensures Push(base + [kind] + stack, parts) == Push(base + [kind'] + stack, parts)
    decreases |parts|
  {
    if parts[0] == "" || parts[0] == "." {
      PushBeyond(base, kind, kind', stack, parts[1..]);
    } else if parts[0] == ".." {
      DropLast(base + [kind], stack);
      DropLast(base + [kind'], stack);
      if stack == [] {
        assert (base + [kind] + stack)[..|base|] == base && (base + [kind'] + stack)[..|base|] == base;
      } else {
        PushBeyond(base, kind, kind', stack[..|stack| - 1], parts[1..]);
      }
    } else {
      PushBeyond(base, kind, kind', stack + [parts[0]], parts[1..]);
      assert base + [kind] + stack + [parts[0]] == base + [kind] + (stack + [parts[0]]);
      assert base + [kind'] + stack + [parts[0]] == base + [kind'] + (stack + [parts[0]]);
    }
  }

  lemma DropLast(a: Key, b: Key)
    ensures b != [] ==> (a + b)[..|a + b| - 1] == a + b[..|b| - 1]
  {
  }

  lemma BaseContained(mount: Key, kind: string, user: string)
    requires Contained(user)
    ensures Base(mount, kind, user) == mount + [kind] + Home(user)
  {
    PushAbove(mount + [kind], ["users"], Split(user, '/'));
    assert mount + [kind] + ["users"] == mount + [kind, "users"];
  }

  lemma BaseClimbing(mount: Key, kind: string, kind': string, user: string)
    requires !Contained(user)
    ensures Base(mount, kind, user) == Base(mount, kind', user)
  {
    PushBeyond(mount, kind, kind', ["users"], Split(user, '/'));
    assert mount + [kind] + ["users"] == mount + [kind, "users"];
    assert mount + [kind'] + ["users"] == mount + [kind', "users"];
  }

  lemma PlainHome(user: string)
    requires Plain(user)
    ensures Contained(user) && Home(user) == ["users", user]
  {
    SplitFree(user, '/');
    assert [user][1..] == [];
    assert Stays(2, []);
    PushOne(["users"], user);
  }

  lemma {:induction false} PushPlainAlways(stack: Key, parts: seq<string>)
    requires (forall c <- stack :: Plain(c)) && (forall p <- parts :: '/' !in p)
    ensures forall c <- Push(stack, parts) :: Plain(c)
    decreases |parts|
  {
    if parts != [] {
      assert parts[0] in parts && forall p <- parts[1..] :: p in parts;
      if parts[0] == "" || parts[0] == "." {
        PushPlainAlways(stack, parts[1..]);
      } else if parts[0] == ".." {
        PushPlainAlways(if stack == [] then [] else stack[..|stack| - 1], parts[1..]);
      } else {
        PushPlainAlways(stack + [parts[0]], parts[1..]);
      }
    }
  }

  /** A cleaned path has ordinary components only. */
  lemma CleanPlain(path: string)
    ensures forall c <- Clean(path) :: Plain(c)
  {
    PiecesFree(path, '/');
    PushPlainAlways([VERSION], Split(path, '/'));
  }

  // ---- the paths the repository composes --------------------------------------------------------

  /** A path below a user, piece by piece. */
  function UserRoot(kv: string, kind: string, user: string): string {
    kv + "/" + kind + "/users/" + user
  }

  lemma PathTexts(kv: string, user: string, rest: string)
    ensures DataPath(kv, user, rest) == UserRoot(kv, "data", user) + "/" + rest
    ensures ListPath(kv, user, rest) == UserRoot(kv, "metadata", user) + "/" + rest
    ensures UserPath(kv, user) == UserRoot(kv, "metadata", user)
  {
    assert "/data/users/" == "/" + "data" + "/users/";
    assert "/metadata/users/" == "/" + "metadata" + "/users/";
  }

  lemma RootText(kv: string, kind: string, user: string)
    ensures UserRoot(kv, kind, user) == kv + "/" + kind + "/" + "users" + "/" + user
  {
    assert "/users/" == "/" + "users" + "/";
  }

  lemma RootClean(kv: string, kind: string, user: string)
    requires Plain(kind)
    ensures Clean(UserRoot(kv, kind, user)) == Base(Clean(kv), kind, user)
  {
    RootText(kv, kind, user);
    CleanSlash(kv, kind);
    CleanSlash(kv + "/" + kind, "users");
    CleanSlash(kv + "/" + kind + "/" + "users", user);
    PushTwo(Clean(kv), kind, "users");
  }

  lemma PushTwo(stack: Key, a: string, b: string)
    requires Plain(a) && Plain(b)
    ensures Push(Push(stack, Split(a, '/')), Split(b, '/')) == stack + [a, b]
  {
    PushOne(stack, a);
    PushOne(stack + [a], b);
    assert stack + [a] + [b] == stack + [a, b];
  }

  /** "base/a/b" stands for the components base, a and b, "." at the end for none. */
  function Rest(base: string, names: seq<string>): string {
    base + "/" + (if names == [] then "." else Join(names, '/'))
  }

  lemma RestPush(stack: Key, base: string, names: seq<string>)
    requires Plain(base) && forall n <- names :: Plain(n)
    ensures Push(stack, Split(Rest(base, names), '/')) == stack + ([base] + names)
  {
    var rel := if names == [] then "." else Join(names, '/');
    SplitConcat(base, rel, '/');
    SplitFree(base, '/');
    if names == [] {
      SplitFree(rel, '/');
      assert Push(stack, [base, "."]) == Push(stack + [base], ["."]);
    } else {
      SplitJoin(names, '/');
      PushPlain(stack, [base] + names);
    }
  }

  /** What the paths of any user come to after cleaning. */
  lemma FileClean(kv: string, user: string, base: string, names: seq<string>)
    requires Plain(base) && forall n <- names :: Plain(n)
    ensures Clean(DataPath(kv, user, Rest(base, names))) == Base(Clean(kv), "data", user) + ([base] + names)
  {
    PathTexts(kv, user, Rest(base, names));
    CleanSlash(UserRoot(kv, "data", user), Rest(base, names));
    RootClean(kv, "data", user);
    RestPush(Base(Clean(kv), "data", user), base, names);
  }

  lemma NameClean(kv: string, user: string, name: string)
    requires Plain(name)
    ensures Clean(DataPath(kv, user, name)) == Base(Clean(kv), "data", user) + [name]
  {
    PathTexts(kv, user, name);
    CleanSlash(UserRoot(kv, "data", user), name);
    RootClean(kv, "data", user);
    PushOne(Base(Clean(kv), "data", user), name);
  }

  lemma ListClean(kv: string, user: string, dir: string)
    requires Plain(dir)
    ensures Clean(ListPath(kv, user, dir)) == Base(Clean(kv), "metadata", user) + [dir]
  {
    PathTexts(kv, user, dir);
    CleanSlash(UserRoot(kv, "metadata", user), dir);
    RootClean(kv, "metadata", user);
    PushOne(Base(Clean(kv), "metadata", user), dir);
  }

  lemma UserClean(kv: string, user: string)
    ensures Clean(UserPath(kv, user)) == Base(Clean(kv), "metadata", user)
  {
    PathTexts(kv, user, "");
    RootClean(kv, "metadata", user);
  }

  lemma RouteOf(mount: Key, path: string, kind: string, key: Key)
    requires Clean(path) == mount + [kind] + key
    ensures key == [] ==> Route(mount, path).Other?
    ensures key != [] && kind == "data" ==> Route(mount, path) == Data(key)
    ensures key != [] && kind == "metadata" ==> Route(mount, path) == Meta(key)
  {
    var full := Clean(path);
    assert full[|mount|] == kind && full[|mount| + 1..] == key && full[..|mount|] == mount;
    assert "data" != "metadata" by {
      assert |"data"| == 4;
    }
  }

  lemma Regrouped(mount: Key, kind: string, home: Key, rest: Key)
    ensures mount + [kind] + home + rest == mount + [kind] + (home + rest)
  {
  }

  /** The key of a file stored for a contained user: path composition loses nothing. */
  lemma FileRoute(kv: string, user: string, base: string, names: seq<string>)
    requires Contained(user) && Plain(base) && forall n <- names :: Plain(n)
    ensures Route(Clean(kv), DataPath(kv, user, Rest(base, names))) == Data(At(user, base) + names)
  {
    FileClean(kv, user, base, names);
    BaseContained(Clean(kv), "data", user);
    Regrouped(Clean(kv), "data", Home(user), [base] + names);
    assert Home(user) + ([base] + names) == At(user, base) + names;
    RouteOf(Clean(kv), DataPath(kv, user, Rest(base, names)), "data", At(user, base) + names);
  }

  lemma NameRoute(kv: string, user: string, name: string)
    requires Contained(user) && Plain(name)
    ensures Route(Clean(kv), DataPath(kv, user, name)) == Data(At(user, name))
  {
    NameClean(kv, user, name);
    BaseContained(Clean(kv), "data", user);
    Regrouped(Clean(kv), "data", Home(user), [name]);
    RouteOf(Clean(kv), DataPath(kv, user, name), "data", At(user, name));
  }

  lemma ListRoute(kv: string, user: string, dir: string)
    requires Contained(user) && Plain(dir)
    ensures Route(Clean(kv), ListPath(kv, user, dir)) == Meta(At(user, dir))
  {
    ListClean(kv, user, dir);
    BaseContained(Clean(kv), "metadata", user);
    Regrouped(Clean(kv), "metadata", Home(user), [dir]);
    RouteOf(Clean(kv), ListPath(kv, user, dir), "metadata", At(user, dir));
  }

  /** The removal path names the user's own place, if there is one. */
  lemma UserRoute(kv: string, user: string)
    requires Contained(user)
    ensures Route(Clean(kv), UserPath(kv, user)) == if Home(user) == [] then Other else Meta(Home(user))
  {
    UserClean(kv, user);
    BaseContained(Clean(kv), "metadata", user);
    RouteOf(Clean(kv), UserPath(kv, user), "metadata", Home(user));
  }

  /** A data path and a metadata path of a user whose name climbs out are the same path. */
  lemma ClimbingPaths(kv: string, user: string, dir: string, name: string)
    requires !Contained(user) && Plain(dir) && Plain(name)
    ensures Clean(ListPath(kv, user, dir)) == Base(Clean(kv), "data", user) + [dir]
    ensures Clean(DataPath(kv, user, Rest(dir, [name]))) == Clean(ListPath(kv, user, dir)) + [name]
    ensures Clean(DataPath(kv, user, name)) == Base(Clean(kv), "data", user) + [name]
  {
    BaseClimbing(Clean(kv), "data", "metadata", user);
    ListClean(kv, user, dir);
    FileClean(kv, user, dir, [name]);
    NameClean(kv, user, name);
    assert Base(Clean(kv), "data", user) + ([dir] + [name]) == Base(Clean(kv), "data", user) + [dir] + [name];
  }
}
