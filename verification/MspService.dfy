/** `service.Vault`: one user's MSP as a whole. */
module VaultServices {
  import opened Text
  import opened Base64
  import opened Paths
  import opened VaultEngine
  import opened MspTree
  import opened VaultRepository

  const REVOCATION_KEY := "IssuerRevocationPublicKey"
  const SIGNCERTS := "signcerts"
  const KEYSTORE := "keystore"
  const CACERTS := "cacerts"

  function KeyWrite(msp: Msp): seq<Write> {
    if msp.revocationKey.Some? then [Write(REVOCATION_KEY, msp.revocationKey)] else []
  }

  /** Every file StoreUserMSP stores, in the order it does. */
  function Plan(msp: Msp): seq<Write> {
    KeyWrite(msp)
    + Writes(SIGNCERTS, Visits(msp.signcerts, []))
    + Writes(KEYSTORE, Visits(msp.keystore, []))
    + Writes(CACERTS, Visits(msp.cacerts, []))
  }

  /** Where a file comes in the order of storing. */
  function Rank(rest: string): nat {
    if rest == "IssuerRevocationPublicKey" then 0
    else if "signcerts" <= rest then 1
    else if "keystore" <= rest then 2
    else if "cacerts" <= rest then 3
    else 4
  }

  lemma Ranks(base: string, names: seq<string>)
    ensures base == SIGNCERTS ==> Rank(Rest(base, names)) == 1
    ensures base == KEYSTORE ==> Rank(Rest(base, names)) == 2
    ensures base == CACERTS ==> Rank(Rest(base, names)) == 3
  {
    var rest := Rest(base, names);
    assert base <= rest;
    if base == SIGNCERTS || base == KEYSTORE || base == CACERTS {
      assert rest[0] == base[0] && "IssuerRevocationPublicKey"[0] == 'I';
      assert SIGNCERTS[0] == 's' && KEYSTORE[0] == 'k' && CACERTS[0] == 'c';
    }
  }

  /** The key is stored first, then the certificate, the private key and the CA certificates: what a
      failure leaves out comes later in that order than what it leaves behind. */
  lemma PlanInOrder(msp: Msp, i: nat, j: nat)
    requires i < j < |Plan(msp)|
    ensures Rank(Plan(msp)[i].rest) <= Rank(Plan(msp)[j].rest) <= 3
  {
    var w0, w1 := KeyWrite(msp), Writes(SIGNCERTS, Visits(msp.signcerts, []));
    var w2, w3 := Writes(KEYSTORE, Visits(msp.keystore, [])), Writes(CACERTS, Visits(msp.cacerts, []));
    WritesRank(SIGNCERTS, Visits(msp.signcerts, []));
    WritesRank(KEYSTORE, Visits(msp.keystore, []));
    WritesRank(CACERTS, Visits(msp.cacerts, []));
    OrderedThen(w0, w1, 1);
    OrderedThen(w0 + w1, w2, 2);
    OrderedThen(w0 + w1 + w2, w3, 3);
  }

  predicate Ordered(ws: seq<Write>, last: nat) {
    && (forall i, j :: 0 <= i < j < |ws| ==> Rank(ws[i].rest) <= Rank(ws[j].rest))
    && (forall i :: 0 <= i < |ws| ==> Rank(ws[i].rest) <= last)
  }

  lemma OrderedThen(a: seq<Write>, b: seq<Write>, r: nat)
    requires r > 0 && Ordered(a, r - 1) && forall i :: 0 <= i < |b| ==> Rank(b[i].rest) == r
    ensures Ordered(a + b, r)
  {
  }

  lemma WritesRank(base: string, visits: seq<Visit>)
    requires base == SIGNCERTS || base == KEYSTORE || base == CACERTS
    ensures forall i :: 0 <= i < |visits| ==>
      Rank(Writes(base, visits)[i].rest) == if base == SIGNCERTS then 1 else if base == KEYSTORE then 2 else 3
  {
    forall i | 0 <= i < |visits|
      ensures Rank(Writes(base, visits)[i].rest) == if base == SIGNCERTS then 1 else if base == KEYSTORE then 2 else 3
    {
      Ranks(base, visits[i].names);
    }
  }

  /** Everything there is to return for a user. */
  function View(store: Store, kv: string, user: string): map<string, string> {
    Texts(store, kv, user, {REVOCATION_KEY}) + DirFiles(store, kv, user, SIGNCERTS)
    + DirFiles(store, kv, user, KEYSTORE) + DirFiles(store, kv, user, CACERTS)
  }

  predicate AllServable(store: Store, kv: string, user: string) {
    && DirServable(store, kv, user, SIGNCERTS)
    && DirServable(store, kv, user, KEYSTORE)
    && DirServable(store, kv, user, CACERTS)
  }

  predicate AnyDirError(store: Store, kv: string, user: string, error: Error) {
    || DirError(store, kv, user, SIGNCERTS, error)
    || DirError(store, kv, user, KEYSTORE, error)
    || DirError(store, kv, user, CACERTS, error)
  }

  /** Whether there is an answer for a user at all. */
  predicate Servable(store: Store, kv: string, user: string) {
    && AllServable(store, kv, user)
    && View(store, kv, user) != map[]
  }

  class VaultService {
    const repo: VaultRepo

    constructor (repo: VaultRepo)
      ensures this.repo == repo
    {
      this.repo := repo;
    }

    method GetUserMsp(username: string) returns (r: Result<map<string, string>>)
      requires repo.Valid()
      ensures r.Ok? ==> Servable(repo.vault.store, repo.kvPath, username)
      ensures r.Ok? ==>
        var view := View(repo.vault.store, repo.kvPath, username);
        r.value == view || (!repo.vault.reliable && r.value == view - {REVOCATION_KEY})
      ensures repo.vault.reliable ==> (r.Ok? <==> Servable(repo.vault.store, repo.kvPath, username))
      ensures r == Err(VaultFailed) ==> !repo.vault.reliable
      ensures r == Err(NoMspData) ==>
        && AllServable(repo.vault.store, repo.kvPath, username)
        && View(repo.vault.store, repo.kvPath, username) - {REVOCATION_KEY} == map[]
      ensures r.Err? && r.error != VaultFailed && r.error != NoMspData ==>
        AnyDirError(repo.vault.store, repo.kvPath, username, r.error)
    {
      var data := new MspData();
      GetKey(username, data);
      ghost var key := data.files;
      var error := GetDirectories(username, data);
      if error.Some? {
        return Err(error.value);
      }
      Gathered(repo.vault.store, repo.kvPath, username, repo.vault.reliable, key, data.files);
      if data.files == map[] {
        return Err(NoMspData);
      }
      return Ok(data.files);
    }

    /** An error in reading the key is passed over. */
    method GetKey(username: string, data: MspData)
      requires repo.Valid() && data.files == map[]
      modifies data
      ensures data.files == Texts(repo.vault.store, repo.kvPath, username, {REVOCATION_KEY})
        || (!repo.vault.reliable && data.files == map[])
    {
      var content := repo.GetVaultContent(username, REVOCATION_KEY);
      if content.Ok? {
        data.files := data.files[REVOCATION_KEY := content.value];
      } else if content.error != VaultFailed {
        ReadErrorIff(repo.vault.store, repo.kvPath, username, REVOCATION_KEY);
      }
      KeyTexts(repo.vault.store, repo.kvPath, username);
    }

    /** The three directories in order; the first error ends the call. */
    method GetDirectories(username: string, data: MspData) returns (error: Option<Error>)
      requires repo.Valid()
      modifies data
      ensures error.None? ==> AllServable(repo.vault.store, repo.kvPath, username)
      ensures error.None? ==>
        data.files == old(data.files) + DirFiles(repo.vault.store, repo.kvPath, username, SIGNCERTS)
          + DirFiles(repo.vault.store, repo.kvPath, username, KEYSTORE)
          + DirFiles(repo.vault.store, repo.kvPath, username, CACERTS)
      ensures error.Some? ==>
        if error.value == VaultFailed then !repo.vault.reliable
        else
          && !AllServable(repo.vault.store, repo.kvPath, username)
          && AnyDirError(repo.vault.store, repo.kvPath, username, error.value)
    {
      error := repo.GetDirectoryContent(username, SIGNCERTS, data);
      if error.Some? {
        return;
      }
      error := repo.GetDirectoryContent(username, KEYSTORE, data);
      if error.Some? {
        return;
      }
      error := repo.GetDirectoryContent(username, CACERTS, data);
    }

    /** Only that one secret is asked to go. */
    method RemoveUserMSP(username: string) returns (ok: bool)
      requires repo.Valid()
      modifies repo.vault
      ensures ok ==>
        repo.vault.store == Deleted(old(repo.vault.store), Route(Clean(repo.kvPath), UserPath(repo.kvPath, username)))
      ensures !ok ==> repo.vault.store == old(repo.vault.store)
      ensures repo.vault.reliable ==> (ok <==> !Route(Clean(repo.kvPath), UserPath(repo.kvPath, username)).Other?)
    {
      ok := repo.vault.LogicalDelete(UserPath(repo.kvPath, username));
    }

    method StoreUserMSP(username: string, msp: Msp) returns (ok: bool, ghost n: nat)
      requires repo.Valid()
      modifies repo.vault
      ensures Landed(repo.vault, repo.kvPath, username, old(repo.vault.store), repo.vault.store, Plan(msp), n, ok)
    {
      ghost var s0, all := repo.vault.store, Plan(msp);
      ghost var w0, w1, w2 := KeyWrite(msp), Writes(SIGNCERTS, Visits(msp.signcerts, [])),
        Writes(KEYSTORE, Visits(msp.keystore, []));
      PlanPrefixes(msp);
      ok, n := StoreKey(username, msp);
      if !ok {
        LandedBefore(repo.vault, repo.kvPath, username, s0, repo.vault.store, w0, all, n);
        return;
      }
      ok, n := StoreNext(username, SIGNCERTS, msp.signcerts, s0, w0, all);
      if !ok {
        return;
      }
      ok, n := StoreNext(username, KEYSTORE, msp.keystore, s0, w0 + w1, all);
      if !ok {
        return;
      }
      ok, n := StoreNext(username, CACERTS, msp.cacerts, s0, w0 + w1 + w2, all);
    }

    /** The revocation key is stored if it can be read. */
    method StoreKey(username: string, msp: Msp) returns (ok: bool, ghost n: nat)
      requires repo.Valid()
      modifies repo.vault
      ensures Landed(repo.vault, repo.kvPath, username, old(repo.vault.store), repo.vault.store, KeyWrite(msp), n, ok)
    {
      ok, n := true, 0;
      if msp.revocationKey.Some? {
        ok := repo.vault.LogicalWrite(DataPath(repo.kvPath, username, REVOCATION_KEY), Encode(msp.revocationKey.value));
        n := if ok then 1 else 0;
      }
    }

    /** One more directory, after the files of `before` and on the way to all of `all`. */
    method StoreNext(username: string, base: string, dir: Node, ghost s0: Store, ghost before: seq<Write>,
                     ghost all: seq<Write>)
      returns (ok: bool, ghost n: nat)
      requires repo.Valid()
      requires Landed(repo.vault, repo.kvPath, username, s0, repo.vault.store, before, |before|, true)
      requires before + Writes(base, Visits(dir, [])) <= all
      modifies repo.vault
      ensures ok ==> n == |before + Writes(base, Visits(dir, []))|
      ensures Landed(repo.vault, repo.kvPath, username, s0, repo.vault.store,
                     if ok then before + Writes(base, Visits(dir, [])) else all, n, ok)
    {
      ghost var s1, m := repo.vault.store, 0;
      ok, m := repo.StoreDirectory(username, base, dir);
      n := |before| + m;
      LandedThen(repo.vault, repo.kvPath, username, s0, s1, repo.vault.store, before,
        Writes(base, Visits(dir, [])), m, ok);
      if !ok {
        LandedBefore(repo.vault, repo.kvPath, username, s0, repo.vault.store,
          before + Writes(base, Visits(dir, [])), all, n);
      }
    }
  }

  lemma PlanPrefixes(msp: Msp)
    ensures var w0, w1, w2 := KeyWrite(msp), Writes(SIGNCERTS, Visits(msp.signcerts, [])),
      Writes(KEYSTORE, Visits(msp.keystore, []));
      w0 <= Plan(msp) && w0 + w1 <= Plan(msp) && w0 + w1 + w2 <= Plan(msp)
  {
  }

  lemma KeyTexts(store: Store, kv: string, user: string)
    ensures var text := FileText(store, kv, user, REVOCATION_KEY);
      Texts(store, kv, user, {REVOCATION_KEY}) == if text.Some? then map[REVOCATION_KEY := text.value] else map[]
  {
  }

  /** The answer is the view, or what is left of it where the key could not be read. */
  lemma Gathered(store: Store, kv: string, user: string, reliable: bool, key: map<string, string>,
                 files: map<string, string>)
    requires AllServable(store, kv, user)
    requires key == Texts(store, kv, user, {REVOCATION_KEY}) || (!reliable && key == map[])
    requires files == key + DirFiles(store, kv, user, SIGNCERTS) + DirFiles(store, kv, user, KEYSTORE)
      + DirFiles(store, kv, user, CACERTS)
    ensures files == View(store, kv, user) || (!reliable && files == View(store, kv, user) - {REVOCATION_KEY})
    ensures files == map[] ==> View(store, kv, user) - {REVOCATION_KEY} == map[]
    ensures files != map[] ==> Servable(store, kv, user)
    ensures reliable && files == map[] ==> !Servable(store, kv, user)
  {
    MissedKey(store, kv, user);
  }

  /** The directories never hold the name of the revocation key. */
  lemma MissedKey(store: Store, kv: string, user: string)
    ensures map[] + DirFiles(store, kv, user, SIGNCERTS) + DirFiles(store, kv, user, KEYSTORE)
      + DirFiles(store, kv, user, CACERTS)
         == View(store, kv, user) - {REVOCATION_KEY}
  {
    DirFileNames(store, kv, user, SIGNCERTS);
    DirFileNames(store, kv, user, KEYSTORE);
    DirFileNames(store, kv, user, CACERTS);
    assert REVOCATION_KEY[0] == 'I';
    WithoutKey(Texts(store, kv, user, {REVOCATION_KEY}), DirFiles(store, kv, user, SIGNCERTS),
               DirFiles(store, kv, user, KEYSTORE), DirFiles(store, kv, user, CACERTS), REVOCATION_KEY);
  }

  lemma WithoutKey(k: map<string, string>, a: map<string, string>, b: map<string, string>,
                   c: map<string, string>, key: string)
    requires k.Keys <= {key} && key !in a && key !in b && key !in c
    ensures map[] + a + b + c == (k + a + b + c) - {key}
  {
  }

  /** All names start with the same character. */
  predicate Tagged(files: map<string, string>, c: char) {
    forall n <- files :: n != "" && n[0] == c
  }

  lemma DirFileNames(store: Store, kv: string, user: string, dir: string)
    requires dir != ""
    ensures Tagged(DirFiles(store, kv, user, dir), dir[0])
  {
  }
}
