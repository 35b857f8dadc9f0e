/**
 * The Telegram authentication service: the check that login data was signed
 * by Telegram, and the account operations behind login and mining.
 *
 * The store operations are specified by functions on a value `Db` (the
 * user, wallet and task collections) and carried out by the methods of the
 * class `Store`, which update its maps one save at a time.
 */
module AuthService {
  import opened Wrappers
  import opened Text

  // ---------------------------------------------------------------------
  // Telegram login check
  // ---------------------------------------------------------------------

  /** The field of the login data that carries Telegram's signature. */
  const HashKey: string := "hash"

  /** A byte string, the digest of SHA-256. */
  type Bytes = seq<bv8>

  /** SHA-256 of a string (FIPS 180-4), left abstract. */
  type Sha256 = string -> Bytes

  /** Hex-encoded HMAC-SHA-256 of a message under a key (RFC 2104), left abstract. */
  type HmacHex = (Bytes, string) -> string

  /** The names of the signed fields, in the order the check string lists them. */
  function DataCheckKeys(data: map<string, string>): (keys: seq<string>)
    ensures Ascending(keys)
    ensures forall k :: k in keys <==> k in data && k != HashKey
    ensures |keys| == |data.Keys - {HashKey}|
  {
    SortedElements(data.Keys - {HashKey})
  }

  /**
   * One `key=value` line per signed field, in key order: the i-th line reads
   * back as the i-th signed key, `=`, and that field's value; `hash` has no
   * line.
   */
  function DataCheckLines(data: map<string, string>): (lines: seq<string>)
    ensures |lines| == |data.Keys - {HashKey}|
    ensures forall i :: 0 <= i < |lines| ==>
      var k := DataCheckKeys(data)[i];
      && k in data && k != HashKey
      && |k| < |lines[i]| && lines[i][..|k|] == k && lines[i][|k|] == '=' && lines[i][|k| + 1..] == data[k]
  {
    var keys := DataCheckKeys(data);
    seq(|keys|, i requires 0 <= i < |keys| => keys[i] + "=" + data[keys[i]])
  }

  /**
   * The data-check string: the lines joined by newlines. It is empty when no
   * field is signed, and otherwise starts with the first line and ends with
   * the last, with no newline before or after.
   */
  function DataCheckString(data: map<string, string>): (s: string)
    ensures data.Keys - {HashKey} == {} ==> s == ""
    ensures data.Keys - {HashKey} != {} ==>
      var lines := DataCheckLines(data);
      var first, last := lines[0], lines[|lines| - 1];
      && |first| <= |s| && s[..|first|] == first
      && |last| <= |s| && s[|s| - |last|..] == last
  {
    var lines := DataCheckLines(data);
    if |lines| == 0 then Join(lines, "\n")
    else
      JoinLast(lines, "\n");
      Join(lines, "\n")
  }

  /**
   * `verifyTelegramLogin`: always true in development mode; otherwise true
   * exactly when the hex HMAC of the data-check string, keyed by the SHA-256
   * digest of the bot token, equals the `hash` field (false when there is no
   * `hash`, as `undefined` equals no string). The HMAC that passes signs the
   * payload with its `hash` field taken out.
   */
  predicate VerifyTelegramLogin(data: map<string, string>, botToken: string, development: bool,
                                sha256: Sha256, hmacHex: HmacHex)
    ensures development ==> VerifyTelegramLogin(data, botToken, development, sha256, hmacHex)
    ensures !development && HashKey !in data ==> !VerifyTelegramLogin(data, botToken, development, sha256, hmacHex)
    ensures !development && VerifyTelegramLogin(data, botToken, development, sha256, hmacHex) ==>
      HashKey in data && hmacHex(sha256(botToken), DataCheckString(data - {HashKey})) == data[HashKey]
  {
    HashNotSigned(data, "");
    development || (HashKey in data && hmacHex(sha256(botToken), DataCheckString(data)) == data[HashKey])
  }

  /** Outside development mode the decision is plain equality of the recomputed HMAC with `hash`. */
  lemma ProductionDecision(data: map<string, string>, botToken: string, sha256: Sha256, hmacHex: HmacHex)
    ensures VerifyTelegramLogin(data, botToken, false, sha256, hmacHex) <==>
      HashKey in data && hmacHex(sha256(botToken), DataCheckString(data)) == data[HashKey]
  {
  }

  /**
   * Sorting makes the key order independent of the order in which the
   * fields were listed: any ascending listing of the signed fields is the one
   * the check string uses.
   */
  lemma KeyOrderIsCanonical(data: map<string, string>, listed: seq<string>)
    requires Ascending(listed)
    requires forall k :: k in listed <==> k in data && k != HashKey
    ensures listed == DataCheckKeys(data)
  {
    AscendingUnique(listed, DataCheckKeys(data));
  }

  /** No field name or value holds a newline. */
  predicate NewlineFree(data: map<string, string>)
  {
    forall k :: k in data ==> '\n' !in k && '\n' !in data[k]
  }

  /**
   * When no field holds a newline, the check string splits back at its
   * newlines into exactly the `key=value` lines: one per signed field, none
   * for `hash`, and no extra newline anywhere.
   */
  lemma DataCheckStringLines(data: map<string, string>)
    requires NewlineFree(data)
    requires data.Keys - {HashKey} != {}
    ensures Split(DataCheckString(data), '\n') == DataCheckLines(data)
  {
    var lines := DataCheckLines(data);
    forall i | 0 <= i < |lines|
      ensures '\n' !in lines[i]
    {
      var k := DataCheckKeys(data)[i];
      assert lines[i] == k + "=" + data[k];
    }
    SplitJoin(lines, '\n');
  }

  /** The check string of a payload with one signed field. */
  lemma OneFieldString(a: string, x: string)
    requires a != HashKey
    ensures DataCheckString(map[a := x]) == a + "=" + x
  {
    var data := map[a := x];
    KeyOrderIsCanonical(data, [a]);
    assert DataCheckLines(data) == [a + "=" + x];
  }

  /** The lines of a payload with two signed fields, `a` before `b`. */
  lemma TwoFieldLines(a: string, x: string, b: string, y: string)
    requires a != HashKey && b != HashKey && Below(a, b)
    ensures DataCheckLines(map[a := x, b := y]) == [a + "=" + x, b + "=" + y]
  {
    var data := map[a := x, b := y];
    BelowIrreflexive(a);
    assert a != b && data[a] == x && data[b] == y;
    assert Ascending([a, b]);
    assert forall k :: k in [a, b] <==> k in data && k != HashKey;
    KeyOrderIsCanonical(data, [a, b]);
    var keys := DataCheckKeys(data);
    var lines := seq(|keys|, i requires 0 <= i < |keys| => keys[i] + "=" + data[keys[i]]);
    assert DataCheckLines(data) == lines;
    assert |lines| == 2 && lines[0] == a + "=" + x && lines[1] == b + "=" + y;
  }

  /** The check string of a payload with two signed fields, `a` before `b`. */
  lemma TwoFieldString(a: string, x: string, b: string, y: string)
    requires a != HashKey && b != HashKey && Below(a, b)
    ensures DataCheckString(map[a := x, b := y]) == (a + "=" + x) + "\n" + (b + "=" + y)
  {
    TwoFieldLines(a, x, b, y);
    var l0, l1 := a + "=" + x, b + "=" + y;
    assert [l0, l1] == [l0] + [l1];
    JoinCons(l0, [l1], "\n");
  }

  /**
   * Regrouping a concatenation of four strings, proved on its own: stated
   * inline among the check-string facts it costs the solver far more.
   */
  lemma Regroup(p: string, q: string, r: string, t: string)
    ensures p + (q + r + t) == (p + q) + r + t
  {
  }

  /**
   * Without that condition the lines cannot be told apart: a value of `a`
   * holding a newline and `b=y` makes the same check string as a separate
   * field `b` (for instance `{a: "1\nb=2"}` and `{a: "1", b: "2"}`).
   */
  lemma NewlineImitatesField(a: string, x: string, b: string, y: string)
    requires a != HashKey && b != HashKey && Below(a, b)
    ensures var one, two := map[a := x + "\n" + (b + "=" + y)], map[a := x, b := y];
      one != two && DataCheckString(one) == DataCheckString(two)
  {
    var one, two := map[a := x + "\n" + (b + "=" + y)], map[a := x, b := y];
    BelowIrreflexive(a);
    assert b in two && b !in one;
    OneFieldString(a, x + "\n" + (b + "=" + y));
    TwoFieldString(a, x, b, y);
    Regroup(a + "=", x, "\n", b + "=" + y);
  }

  /** Two payloads that agree on the signed fields have the same check string. */
  lemma SameSignedFields(d1: map<string, string>, d2: map<string, string>)
    requires d1.Keys - {HashKey} == d2.Keys - {HashKey}
    requires forall k :: k in d1 && k in d2 && k != HashKey ==> d1[k] == d2[k]
    ensures DataCheckString(d1) == DataCheckString(d2)
  {
    var keys := DataCheckKeys(d1);
    assert DataCheckKeys(d2) == keys;
    var l1, l2 := DataCheckLines(d1), DataCheckLines(d2);
    assert |l1| == |l2|;
    forall i | 0 <= i < |keys|
      ensures l1[i] == l2[i]
    {
      assert keys[i] in d1 && keys[i] != HashKey;
    }
    assert l1 == l2;
  }

  /** The `hash` field does not enter the check string: replacing or dropping it changes nothing. */
  lemma HashNotSigned(data: map<string, string>, h: string)
    ensures DataCheckString(data[HashKey := h]) == DataCheckString(data)
    ensures DataCheckString(data - {HashKey}) == DataCheckString(data)
  {
    var d1, d2 := data[HashKey := h], data - {HashKey};
    assert d1.Keys - {HashKey} == data.Keys - {HashKey};
    assert d2.Keys - {HashKey} == data.Keys - {HashKey};
    SameSignedFields(d1, data);
    SameSignedFields(d2, data);
  }

  /** Changing one signed field leaves the line of every other signed field as it was. */
  lemma OtherLineUnchanged(data: map<string, string>, k: string, v: string, i: nat, j: nat)
    requires k in data && k != HashKey
    requires i < |DataCheckKeys(data)| && DataCheckKeys(data)[i] == k
    requires j < |DataCheckKeys(data)| && j != i
    ensures DataCheckKeys(data[k := v]) == DataCheckKeys(data)
    ensures DataCheckLines(data[k := v])[j] == DataCheckLines(data)[j]
  {
    var d := data[k := v];
    assert d.Keys - {HashKey} == data.Keys - {HashKey};
    var keys := DataCheckKeys(data);
    BelowIrreflexive(keys[j]);
    assert Below(keys[i], keys[j]) || Below(keys[j], keys[i]);
    assert keys[j] != k;
  }

  /**
   * Changing the value of one signed field changes the check string, for
   * every payload and every new value.
   */
  lemma ValueChangeChangesCheckString(data: map<string, string>, k: string, v: string)
    requires k in data && k != HashKey && data[k] != v
    ensures DataCheckString(data[k := v]) != DataCheckString(data)
  {
    var d := data[k := v];
    assert d.Keys - {HashKey} == data.Keys - {HashKey};
    var keys := DataCheckKeys(data);
    assert DataCheckKeys(d) == keys;
    var i :| 0 <= i < |keys| && keys[i] == k;
    var l1, l2 := DataCheckLines(data), DataCheckLines(d);
    assert l1[i][|k| + 1..] == data[k];
    assert l2[i][|k| + 1..] == v;
    forall j | 0 <= j < |keys| && j != i
      ensures l2[j] == l1[j]
    {
      OtherLineUnchanged(data, k, v, i, j);
    }
    JoinDiffersAt(l2, l1, i, "\n");
  }

  /**
   * With an HMAC that never maps two messages to the same tag, a payload
   * whose signed field was altered fails the check under the original hash.
   */
  lemma TamperedPayloadRejected(data: map<string, string>, k: string, v: string,
                                botToken: string, sha256: Sha256, hmacHex: HmacHex)
    requires forall m1, m2 :: hmacHex(sha256(botToken), m1) == hmacHex(sha256(botToken), m2) ==> m1 == m2
    requires k in data && k != HashKey && data[k] != v
    requires VerifyTelegramLogin(data, botToken, false, sha256, hmacHex)
    ensures !VerifyTelegramLogin(data[k := v], botToken, false, sha256, hmacHex)
  {
    ValueChangeChangesCheckString(data, k, v);
  }

  // ---------------------------------------------------------------------
  // The account store
  // ---------------------------------------------------------------------

  /** Document ids, handed out in increasing order by the store. */
  type UserId = nat
  type WalletId = nat
  type TaskId = string

  /** A user document; balances are exact reals (JavaScript numbers without rounding). */
  datatype User = User(
    telegramId: int,
    userName: string,
    coinBalance: real,
    availableBalance: real,
    operatingBalance: real,
    completedTask: seq<TaskId>,
    deposits: seq<string>,
    withdrawals: seq<string>,
    firstTime: bool,
    lastMiningClaim: Option<int>,
    upline: Option<UserId>)

  /** A wallet document: the private key is stored only encrypted. */
  datatype Wallet = Wallet(address: string, privateKey: string, userId: UserId)

  /** A task document, as far as this service reads it. */
  datatype Task = Task(title: string, pointReward: real, imageUrl: string, link: Option<string>)

  /** The three collections, and the next free document id. */
  datatype Db = Db(
    users: map<UserId, User>,
    wallets: map<WalletId, Wallet>,
    tasks: map<TaskId, Task>,
    nextId: nat)

  /**
   * The store's invariant: ids are below `nextId`, every wallet belongs to an
   * existing user, and no two users share a Telegram id.
   */
  ghost predicate Valid(db: Db)
  {
    && (forall u :: u in db.users ==> u < db.nextId)
    && (forall w :: w in db.wallets ==> w < db.nextId)
    && (forall w :: w in db.wallets ==> db.wallets[w].userId in db.users)
    && (forall a, b :: a in db.users && b in db.users && a != b ==> db.users[a].telegramId != db.users[b].telegramId)
  }

  /** The store everything starts from. */
  function EmptyDb(): (db: Db)
    ensures Valid(db)
  {
    Db(map[], map[], map[], 0)
  }

  /** `findOne({telegramId})` over the ids `i` to `bound - 1`: the first match in id order. */
  function FindFrom(users: map<UserId, User>, telegramId: int, i: nat, bound: nat): (r: Option<UserId>)
    ensures r.Some? ==> i <= r.value < bound && r.value in users && users[r.value].telegramId == telegramId
    ensures r.Some? ==> forall j :: i <= j < r.value && j in users ==> users[j].telegramId != telegramId
    ensures r.None? ==> forall j :: i <= j < bound && j in users ==> users[j].telegramId != telegramId
    decreases bound - i
  {
    if i >= bound then None
    else if i in users && users[i].telegramId == telegramId then Some(i)
    else FindFrom(users, telegramId, i + 1, bound)
  }

  /**
   * `UserModel.findOne({telegramId})`: the stored user with that Telegram id
   * and the lowest id, or None when no stored user has it.
   */
  function FindByTelegramId(db: Db, telegramId: int): (r: Option<UserId>)
    ensures r.Some? ==> r.value in db.users && db.users[r.value].telegramId == telegramId
    ensures r.Some? ==> forall v :: v in db.users && v < r.value ==> db.users[v].telegramId != telegramId
    ensures r.None? ==> forall v :: v in db.users && v < db.nextId ==> db.users[v].telegramId != telegramId
  {
    FindFrom(db.users, telegramId, 0, db.nextId)
  }

  /** In a valid store the lookup finds the user with that Telegram id, and finds nothing when there is none. */
  lemma FindByTelegramIdExact(db: Db, telegramId: int, u: UserId)
    requires Valid(db)
    ensures FindByTelegramId(db, telegramId) == Some(u) <==> u in db.users && db.users[u].telegramId == telegramId
    ensures FindByTelegramId(db, telegramId).None? <==>
      forall v :: v in db.users ==> db.users[v].telegramId != telegramId
  {
    if u in db.users && db.users[u].telegramId == telegramId {
      assert u < db.nextId;
    }
  }

  /** `telegramData.username || \`user_${telegramData.id}\``: a missing or empty name gets the default. */
  function UserNameFor(telegramId: int, username: Option<string>): string
  {
    if username.None? || username.value == "" then "user_" + Decimal(telegramId) else username.value
  }

  /** The document `UserModel.create` makes for a first login. */
  function NewUser(telegramId: int, username: Option<string>): User
  {
    User(telegramId, UserNameFor(telegramId, username), 0.0, 0.0, 0.0, [], [], [], true, None, None)
  }

  /** Encryption of a private key under a password, left abstract. */
  type Encrypt = (string, string) -> string

  /** The result of `findOrCreateUser`: the store afterwards and the id of the returned user. */
  datatype Provision = Provision(db: Db, userId: UserId)

  /**
   * `findOrCreateUser`: an unknown Telegram id gets a new user and a new
   * wallet holding the generated address and the encrypted private key; a
   * known one gets its first-time flag set again. Either way the user
   * returned has that Telegram id and the flag set, nothing is deleted, and
   * the tasks are not touched; a known id creates no wallet.
   */
  function FindOrCreate(db: Db, telegramId: int, username: Option<string>,
                        address: string, privateKey: string, password: string, encrypt: Encrypt): (p: Provision)
    ensures p.userId in p.db.users && p.db.users[p.userId].telegramId == telegramId && p.db.users[p.userId].firstTime
    ensures db.users.Keys <= p.db.users.Keys && db.wallets.Keys <= p.db.wallets.Keys && p.db.tasks == db.tasks
    ensures FindByTelegramId(db, telegramId).Some? ==>
      p.userId == FindByTelegramId(db, telegramId).value && p.db.wallets == db.wallets && p.db.nextId == db.nextId
  {
    match FindByTelegramId(db, telegramId)
    case Some(u) =>
      var user := db.users[u];
      if !user.firstTime then Provision(db.(users := db.users[u := user.(firstTime := true)]), u)
      else Provision(db, u)
    case None =>
      var u, w := db.nextId, db.nextId + 1;
      Provision(Db(db.users[u := NewUser(telegramId, username)],
                   db.wallets[w := Wallet(address, encrypt(privateKey, password), u)],
                   db.tasks,
                   db.nextId + 2),
                u)
  }

  /** The wallets that belong to a user. */
  function WalletsOf(db: Db, u: UserId): set<WalletId>
  {
    set w | w in db.wallets && db.wallets[w].userId == u
  }

  /**
   * First login: exactly one user is added, with zero balances, empty lists,
   * the first-time flag and the default name rule; no other user changes.
   */
  lemma FindOrCreateNewUser(db: Db, telegramId: int, username: Option<string>,
                            address: string, privateKey: string, password: string, encrypt: Encrypt)
    requires Valid(db)
    requires forall v :: v in db.users ==> db.users[v].telegramId != telegramId
    ensures var p := FindOrCreate(db, telegramId, username, address, privateKey, password, encrypt);
      var u := p.userId;
      && u !in db.users
      && u in p.db.users
      && p.db.users == db.users[u := p.db.users[u]]
      && |p.db.users| == |db.users| + 1
      && p.db.tasks == db.tasks
  {
    FindByTelegramIdExact(db, telegramId, 0);
    assert db.nextId !in db.users;
  }

  /** The user that a first login creates. */
  lemma NewUserFields(telegramId: int, username: Option<string>)
    ensures var user := NewUser(telegramId, username);
      && user.telegramId == telegramId
      && user.userName == (if username.Some? && username.value != "" then username.value
                           else "user_" + Decimal(telegramId))
      && user.coinBalance == 0.0 && user.availableBalance == 0.0 && user.operatingBalance == 0.0
      && user.completedTask == [] && user.deposits == [] && user.withdrawals == []
      && user.firstTime && user.lastMiningClaim.None? && user.upline.None?
  {
  }

  /**
   * First login, continued: the new user is the one `NewUser` describes, and
   * exactly one wallet is added, owned by the new user and holding the
   * generated address and the encrypted private key.
   */
  lemma FindOrCreateNewWallet(db: Db, telegramId: int, username: Option<string>,
                              address: string, privateKey: string, password: string, encrypt: Encrypt)
    requires Valid(db)
    requires forall v :: v in db.users ==> db.users[v].telegramId != telegramId
    ensures var p := FindOrCreate(db, telegramId, username, address, privateKey, password, encrypt);
      var u := p.userId;
      && u in p.db.users && p.db.users[u] == NewUser(telegramId, username)
      && |p.db.wallets| == |db.wallets| + 1
      && (exists w: WalletId :: w !in db.wallets && p.db.wallets == db.wallets[w := Wallet(address, encrypt(privateKey, password), u)])
      && |WalletsOf(p.db, u)| == 1
  {
    FindByTelegramIdExact(db, telegramId, 0);
    var p := FindOrCreate(db, telegramId, username, address, privateKey, password, encrypt);
    var u, w := db.nextId, db.nextId + 1;
    assert p.userId == u;
    assert u !in db.users && w !in db.wallets;
    assert p.db.wallets == db.wallets[w := Wallet(address, encrypt(privateKey, password), u)];
    assert forall x :: x in db.wallets ==> db.wallets[x].userId != u;
    assert WalletsOf(p.db, u) == {w};
  }

  /**
   * Later logins: no user and no wallet is created; the returned user is the
   * one with that Telegram id, and the only change is its first-time flag,
   * now set.
   */
  lemma FindOrCreateExisting(db: Db, u: UserId, username: Option<string>,
                             address: string, privateKey: string, password: string, encrypt: Encrypt)
    requires Valid(db) && u in db.users
    ensures var p := FindOrCreate(db, db.users[u].telegramId, username, address, privateKey, password, encrypt);
      && p.userId == u
      && p.db == db.(users := db.users[u := db.users[u].(firstTime := true)])
  {
    FindByTelegramIdExact(db, db.users[u].telegramId, u);
    if db.users[u].firstTime {
      assert db.users[u].(firstTime := true) == db.users[u];
      assert db.users[u := db.users[u].(firstTime := true)] == db.users;
    }
  }

  /** `findOrCreateUser` keeps the store's invariant, and the user it returns has the first-time flag set. */
  lemma FindOrCreateKeepsValid(db: Db, telegramId: int, username: Option<string>,
                               address: string, privateKey: string, password: string, encrypt: Encrypt)
    requires Valid(db)
    ensures var p := FindOrCreate(db, telegramId, username, address, privateKey, password, encrypt);
      Valid(p.db) && p.userId in p.db.users && p.db.users[p.userId].firstTime
      && p.db.users[p.userId].telegramId == telegramId
  {
    FindByTelegramIdExact(db, telegramId, 0);
  }

  /**
   * A second login with the same Telegram id returns the same user and leaves
   * the store as the first one left it: in particular no second wallet.
   */
  lemma FindOrCreateIdempotent(db: Db, telegramId: int, name1: Option<string>, name2: Option<string>,
                               address1: string, privateKey1: string, address2: string, privateKey2: string,
                               password: string, encrypt: Encrypt)
    requires Valid(db)
    ensures var p1 := FindOrCreate(db, telegramId, name1, address1, privateKey1, password, encrypt);
      var p2 := FindOrCreate(p1.db, telegramId, name2, address2, privateKey2, password, encrypt);
      p2.userId == p1.userId && p2.db == p1.db && |p2.db.wallets| == |p1.db.wallets|
  {
    var p1 := FindOrCreate(db, telegramId, name1, address1, privateKey1, password, encrypt);
    FindOrCreateKeepsValid(db, telegramId, name1, address1, privateKey1, password, encrypt);
    FindOrCreateExisting(p1.db, p1.userId, name2, address2, privateKey2, password, encrypt);
    assert p1.db.users[p1.userId := p1.db.users[p1.userId].(firstTime := true)] == p1.db.users;
  }

  /**
   * `checkUserExistsByTelegramId`: `!!user?.firstTime` for the user found, so
   * true only for a stored user with the flag set, and false when no stored
   * user has that Telegram id.
   */
  function CheckUserExists(db: Db, telegramId: int): (r: bool)
    ensures r ==> exists u :: u in db.users && db.users[u].telegramId == telegramId && db.users[u].firstTime
    ensures (forall u :: u in db.users ==> db.users[u].telegramId != telegramId) ==> !r
  {
    match FindByTelegramId(db, telegramId)
    case None => false
    case Some(u) => db.users[u].firstTime
  }

  /** True exactly when a user with that Telegram id exists and has the first-time flag set. */
  lemma CheckUserExistsExactly(db: Db, telegramId: int)
    requires Valid(db)
    ensures CheckUserExists(db, telegramId) <==>
      exists u :: u in db.users && db.users[u].telegramId == telegramId && db.users[u].firstTime
  {
    if u :| u in db.users && db.users[u].telegramId == telegramId && db.users[u].firstTime {
      FindByTelegramIdExact(db, telegramId, u);
    }
  }

  /**
   * `getCompletedTasks`: nothing for a missing user or an empty list;
   * otherwise the stored tasks whose id is listed, keyed by id (the order of
   * the result is not specified).
   */
  function CompletedTasks(db: Db, userId: UserId): (r: map<TaskId, Task>)
    ensures userId !in db.users ==> r == map[]
    ensures userId in db.users ==>
      && (forall t :: t in r <==> t in db.tasks && t in db.users[userId].completedTask)
      && (forall t :: t in r ==> r[t] == db.tasks[t])
  {
    if userId !in db.users || |db.users[userId].completedTask| == 0 then map[]
    else
      var listed := db.users[userId].completedTask;
      map t | t in db.tasks && t in listed :: db.tasks[t]
  }

  /** The error `claimMiningPoints` throws for an unknown user. */
  const UserNotFound: string := "User not found"
  const ClaimMessage: string := "Mining points claimed successfully"

  /** What `claimMiningPoints` returns. */
  datatype Receipt = Receipt(message: string, updatedBalance: real)

  /** The store after a claim, and the receipt. */
  datatype Claim = Claim(db: Db, receipt: Receipt)

  /**
   * `claimMiningPoints`, as two writes in the source's order: first the
   * claimer's document (balance plus `points`, claim time `now`), then the
   * upline's document, read back after that first write, credited with a
   * tenth of `points`. The receipt reports the claimer's balance as held in
   * memory after the first write. An unknown user gets "User not found" and
   * no new store; a claim never adds or removes a document.
   */
  function ClaimMining(db: Db, userId: UserId, points: real, now: int): (r: Result<Claim, string>)
    ensures r.Failure? <==> userId !in db.users
    ensures r.Failure? ==> r.error == UserNotFound
    ensures r.Success? ==>
      && r.value.db.wallets == db.wallets && r.value.db.tasks == db.tasks && r.value.db.nextId == db.nextId
      && r.value.db.users.Keys == db.users.Keys
      && r.value.receipt == Receipt(ClaimMessage, db.users[userId].coinBalance + points)
  {
    if userId !in db.users then Failure(UserNotFound)
    else
      var user := db.users[userId];
      var claimed := user.(coinBalance := user.coinBalance + points, lastMiningClaim := Some(now));
      var afterClaim := db.users[userId := claimed];
      var afterBonus :=
        if claimed.upline.Some? && claimed.upline.value in afterClaim then
          var up := claimed.upline.value;
          afterClaim[up := afterClaim[up].(coinBalance := afterClaim[up].coinBalance + points * 0.1)]
        else afterClaim;
      Success(Claim(db.(users := afterBonus), Receipt(ClaimMessage, claimed.coinBalance)))
  }

  /** Does the claimer's upline reference resolve to a stored user? */
  predicate UplineResolves(db: Db, userId: UserId)
  {
    userId in db.users && db.users[userId].upline.Some? && db.users[userId].upline.value in db.users
  }

  /**
   * A claim adds exactly `points` (of either sign) to the claimer and a tenth
   * of it to a resolvable upline distinct from the claimer, stamps the claim
   * time, and changes no other user, no wallet and no task. The receipt
   * holds the claimer's balance after the add.
   */
  lemma ClaimBookkeeping(db: Db, userId: UserId, points: real, now: int)
    requires userId in db.users
    ensures var r := ClaimMining(db, userId, points, now);
      var before := db.users[userId];
      && r.Success?
      && r.value.db.wallets == db.wallets && r.value.db.tasks == db.tasks && r.value.db.nextId == db.nextId
      && r.value.db.users.Keys == db.users.Keys
      && r.value.receipt == Receipt(ClaimMessage, before.coinBalance + points)
      && r.value.db.users[userId].lastMiningClaim == Some(now)
      && (before.upline != Some(userId) ==>
            r.value.db.users[userId] == before.(coinBalance := before.coinBalance + points, lastMiningClaim := Some(now)))
      && (UplineResolves(db, userId) && before.upline != Some(userId) ==>
            var up := before.upline.value;
            r.value.db.users[up] == db.users[up].(coinBalance := db.users[up].coinBalance + points * 0.1))
      && (forall v :: v in db.users && v != userId && Some(v) != before.upline ==> r.value.db.users[v] == db.users[v])
      && (!UplineResolves(db, userId) ==> forall v :: v in db.users && v != userId ==> r.value.db.users[v] == db.users[v])
  {
  }

  /**
   * A user who is its own upline: the second write reads back the first, so
   * the stored balance gains `points` plus a tenth, while the receipt reports
   * only the first add.
   */
  lemma ClaimSelfUpline(db: Db, userId: UserId, points: real, now: int)
    requires userId in db.users && db.users[userId].upline == Some(userId)
    ensures var r := ClaimMining(db, userId, points, now);
      && r.Success?
      && r.value.db.users[userId].coinBalance == db.users[userId].coinBalance + points + points * 0.1
      && r.value.receipt.updatedBalance == db.users[userId].coinBalance + points
  {
  }

  /** A claim keeps the store's invariant. */
  lemma ClaimKeepsValid(db: Db, userId: UserId, points: real, now: int)
    requires Valid(db)
    ensures ClaimMining(db, userId, points, now).Success? ==> Valid(ClaimMining(db, userId, points, now).value.db)
  {
  }

  /** The coins held by all users together. */
  ghost function TotalCoins(users: map<UserId, User>): real
    decreases |users|
  {
    if users == map[] then 0.0
    else
      var u :| u in users;
      users[u].coinBalance + TotalCoins(users - {u})
  }

  /** Any user can be taken out first when summing. */
  lemma {:induction false} TotalCoinsRemove(users: map<UserId, User>, u: UserId)
    requires u in users
    ensures TotalCoins(users) == users[u].coinBalance + TotalCoins(users - {u})
    decreases |users|
  {
    var v :| v in users && TotalCoins(users) == users[v].coinBalance + TotalCoins(users - {v});
    if v != u {
      TotalCoinsRemove(users - {v}, u);
      TotalCoinsRemove(users - {u}, v);
      assert users - {v} - {u} == users - {u} - {v};
    }
  }

  /** Replacing one user's document changes the total by the change in its balance. */
  lemma TotalCoinsUpdate(users: map<UserId, User>, u: UserId, user: User)
    requires u in users
    ensures TotalCoins(users[u := user]) == TotalCoins(users) - users[u].coinBalance + user.coinBalance
  {
    TotalCoinsRemove(users, u);
    TotalCoinsRemove(users[u := user], u);
    assert users[u := user] - {u} == users - {u};
  }

  /**
   * Balance bookkeeping: a claim raises the users' total by `points`, plus a
   * tenth of it when the upline resolves.
   */
  lemma ClaimTotal(db: Db, userId: UserId, points: real, now: int)
    requires userId in db.users
    ensures ClaimMining(db, userId, points, now).Success?
    ensures TotalCoins(ClaimMining(db, userId, points, now).value.db.users) ==
      TotalCoins(db.users) + points + (if UplineResolves(db, userId) then points * 0.1 else 0.0)
  {
    var user := db.users[userId];
    var claimed := user.(coinBalance := user.coinBalance + points, lastMiningClaim := Some(now));
    var afterClaim := db.users[userId := claimed];
    TotalCoinsUpdate(db.users, userId, claimed);
    if claimed.upline.Some? && claimed.upline.value in afterClaim {
      var up := claimed.upline.value;
      TotalCoinsUpdate(afterClaim, up, afterClaim[up].(coinBalance := afterClaim[up].coinBalance + points * 0.1));
    }
  }

  /** The collections, held in place and updated one save at a time. */
  class Store {
    var users: map<UserId, User>
    var wallets: map<WalletId, Wallet>
    var tasks: map<TaskId, Task>
    var nextId: nat

    /** The collections as a value. */
    function State(): Db
      reads this
    {
      Db(users, wallets, tasks, nextId)
    }

    constructor ()
      ensures State() == EmptyDb()
    {
      users, wallets, tasks, nextId := map[], map[], map[], 0;
    }

    /** `findOrCreateUser`: look the user up, create user and wallet if absent, re-arm the first-time flag. */
    method FindOrCreateUser(telegramId: int, username: Option<string>,
                            address: string, privateKey: string, password: string, encrypt: Encrypt)
      returns (id: UserId, user: User)
      requires Valid(State())
      modifies this
      ensures var p := FindOrCreate(old(State()), telegramId, username, address, privateKey, password, encrypt);
        State() == p.db && id == p.userId
      ensures Valid(State()) && id in users && user == users[id] && user.firstTime && user.telegramId == telegramId
    {
      ghost var before := State();
      FindOrCreateKeepsValid(before, telegramId, username, address, privateKey, password, encrypt);
      var found := FindByTelegramId(State(), telegramId);
      if found.None? {
        id := nextId;
        nextId := nextId + 1;
        user := NewUser(telegramId, username);
        users := users[id := user];
        var walletId := nextId;
        nextId := nextId + 1;
        var encrypted := encrypt(privateKey, password);
        wallets := wallets[walletId := Wallet(address, encrypted, id)];
      } else {
        id := found.value;
        user := users[id];
      }
      if !user.firstTime {
        user := user.(firstTime := true);
        users := users[id := user];
      }
    }

    /** `claimMiningPoints`: save the claimer, then re-read and credit the upline. */
    method ClaimMiningPoints(userId: UserId, points: real, now: int) returns (r: Result<Receipt, string>)
      requires Valid(State())
      modifies this
      ensures match ClaimMining(old(State()), userId, points, now)
        case Failure(e) => r == Failure(e) && State() == old(State())
        case Success(c) => r == Success(c.receipt) && State() == c.db
      ensures Valid(State())
    {
      ClaimKeepsValid(State(), userId, points, now);
      if userId !in users {
        return Failure(UserNotFound);
      }
      var user := users[userId];
      user := user.(coinBalance := user.coinBalance + points, lastMiningClaim := Some(now));
      users := users[userId := user];
      if user.upline.Some? && user.upline.value in users {
        var up := user.upline.value;
        var upline := users[up];
        upline := upline.(coinBalance := upline.coinBalance + points * 0.1);
        users := users[up := upline];
      }
      return Success(Receipt(ClaimMessage, user.coinBalance));
    }
  }

  /**
   * Two logins in a row on the live store: the same user comes back and the
   * wallet collection does not grow on the second.
   */
  method LoginTwice(store: Store, telegramId: int, username: Option<string>,
                    address1: string, privateKey1: string, address2: string, privateKey2: string,
                    password: string, encrypt: Encrypt)
    returns (first: UserId, second: UserId)
    requires Valid(store.State())
    modifies store
    ensures first == second
    ensures store.State() == FindOrCreate(old(store.State()), telegramId, username, address1, privateKey1, password, encrypt).db
  {
    ghost var before := store.State();
    var user1, user2;
    first, user1 := store.FindOrCreateUser(telegramId, username, address1, privateKey1, password, encrypt);
    ghost var walletsAfterFirst := |store.wallets|;
    second, user2 := store.FindOrCreateUser(telegramId, username, address2, privateKey2, password, encrypt);
    FindOrCreateIdempotent(before, telegramId, username, username, address1, privateKey1, address2, privateKey2, password, encrypt);
    assert user2 == user1 && |store.wallets| == walletsAfterFirst;
  }
}
