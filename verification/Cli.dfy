/**
 The configuration commands as a transaction machine over the key table, the association
 table and the authentication flag.
 */
module Cli {
  import opened Wrappers
  import opened Text
  import opened Enumerations
  import opened Projection
  import opened Unfolding

  const KEY_ID_MIN := 1
  const KEY_ID_MAX := 65534
  const PASSWORD_MIN := 8
  const PASSWORD_MAX := 16
  const MAX_SERVERS := 8
  const MAX_NAME := 57

  /** What deleting a key does to associations that refer to it: clear them, or fail. */
  datatype RefKind = Weak | Strong

  /** What the schema, the address validator and the System table leave open. */
  datatype Env = Env(refs: RefKind, acceptsIpv4: string -> bool, hasSystem: bool)

  datatype KeyInfo = KeyInfo(password: string, trusted: bool)
  datatype AssocInfo = AssocInfo(key: Option<int>, version: string, prefer: bool)
  datatype Db = Db(keys: map<int, KeyInfo>, assocs: map<string, AssocInfo>, auth: bool)

  const EMPTY := Db(map[], map[], false)
  const DEFAULT_ASSOC := AssocInfo(None, DEFAULT_VERSION, false)

  /** Numbers are still the strings that were typed. */
  datatype Command =
    | Server(name: string, prefer: bool, version: Option<string>, keyId: Option<string>)
    | NoServer(name: string)
    | AuthKey(key: string, password: string)
    | NoAuthKey(key: string)
    | TrustedKey(key: string, trust: bool)
    | AuthEnable(enable: bool)

  datatype Outcome = Success | NothingToDo | DbFailure | Warning

  // ---------- argument checks ----------

  /** `ispunct` of a character of the C locale. */
  predicate IsPunct(c: char) {
    '!' <= c <= '/' || ':' <= c <= '@' || '[' <= c <= '`' || '{' <= c <= '~'
  }

  predicate HasAllDigits(name: string) {
    forall i :: 0 <= i < |name| ==> IsPunct(name[i]) || IsDigit(name[i])
  }

  /**
   `inet_pton` accepts only digits and dots and never the empty string; addresses that start
   with `0` are refused; the rest of the decision is open.
   */
  predicate ValidIpv4(env: Env, name: string) {
    name != "" && (forall i :: 0 <= i < |name| ==> IsDigit(name[i]) || name[i] == '.')
    && name[0] != '0' && env.acceptsIpv4(name)
  }

  predicate ValidName(env: Env, name: string) {
    HasAllDigits(name) ==> ValidIpv4(env, name)
  }

  predicate KeyIdInRange(id: int) {
    KEY_ID_MIN <= id <= KEY_ID_MAX
  }

  predicate VersionInRange(version: string) {
    3 <= Atoi(version) <= 4
  }

  function CheckName(env: Env, name: string): Outcome {
    if |name| > MAX_NAME || !ValidName(env, name) then NothingToDo else Success
  }

  /** Range, existence when `wantRow`, and password length, in this order. */
  function KeySanity(db: Db, key: Option<string>, wantRow: bool, password: Option<string>): Outcome {
    if key.Some? && !KeyIdInRange(Atoi(key.value)) then NothingToDo
    else if key.Some? && wantRow && Atoi(key.value) !in db.keys then DbFailure
    else if password.Some? && !(PASSWORD_MIN <= |password.value| <= PASSWORD_MAX) then NothingToDo
    else Success
  }

  function VersionSanity(version: Option<string>): Outcome {
    if version.Some? && !VersionInRange(version.value) then NothingToDo else Success
  }

  function CheckServer(env: Env, db: Db, name: string, version: Option<string>, keyId: Option<string>): Outcome {
    var nameCheck, keyCheck := CheckName(env, name), KeySanity(db, keyId, true, None);
    if nameCheck != Success then nameCheck
    else if keyCheck != Success then keyCheck
    else VersionSanity(version)
  }

  // ---------- transactions ----------

  /** Options given replace, options left out keep what is there; `prefer` is never taken back. */
  function Overlay(info: AssocInfo, prefer: bool, version: Option<string>, keyId: Option<string>): AssocInfo {
    AssocInfo(
      if keyId.Some? then Some(Atoi(keyId.value)) else info.key,
      version.GetOr(info.version),
      info.prefer || prefer)
  }

  /** What `ntp server` and `no ntp server` store once all checks have passed. */
  function StoreServer(db: Db, c: Command): Db
    requires c.Server? || c.NoServer?
  {
    match c
    case NoServer(name) => db.(assocs := db.assocs - {name})
    case Server(name, prefer, version, keyId) =>
      if name in db.assocs then db.(assocs := db.assocs[name := Overlay(db.assocs[name], prefer, version, keyId)])
      else if |db.assocs| >= MAX_SERVERS then db
      else db.(assocs := db.assocs[name := Overlay(DEFAULT_ASSOC, prefer, version, keyId)])
  }

  /** The `no` form comes with neither version nor key. */
  function SetServer(env: Env, db: Db, c: Command): (Db, Outcome)
    requires c.Server? || c.NoServer?
  {
    var check := if c.Server? then CheckServer(env, db, c.name, c.version, c.keyId) else CheckServer(env, db, c.name, None, None);
    if check != Success then (db, check) else (StoreServer(db, c), Success)
  }

  predicate Refers(info: AssocInfo, id: int) {
    info.key == Some(id)
  }

  predicate Referenced(db: Db, id: int) {
    exists n :: n in db.assocs && Refers(db.assocs[n], id)
  }

  function ClearKey(assocs: map<string, AssocInfo>, id: int): map<string, AssocInfo> {
    map n | n in assocs :: if Refers(assocs[n], id) then assocs[n].(key := None) else assocs[n]
  }

  function DeleteKey(env: Env, db: Db, id: int): (Db, Outcome) {
    if id !in db.keys then (db, Success)
    else if env.refs == Strong && Referenced(db, id) then (db, Warning)
    else (Db(db.keys - {id}, ClearKey(db.assocs, id), db.auth), Success)
  }

  function SetKey(db: Db, id: int, password: string): Db {
    db.(keys := db.keys[id := KeyInfo(password, id in db.keys && db.keys[id].trusted)])
  }

  function SetTrust(db: Db, id: int, trust: bool): Db {
    if id in db.keys then db.(keys := db.keys[id := db.keys[id].(trusted := trust)]) else db
  }

  function Apply(env: Env, db: Db, c: Command): (Db, Outcome) {
    match c
    case Server(_, _, _, _) => SetServer(env, db, c)
    case NoServer(_) => SetServer(env, db, c)
    case AuthKey(key, password) =>
      var sane := KeySanity(db, Some(key), false, Some(password));
      if sane != Success then (db, sane) else (SetKey(db, Atoi(key), password), Success)
    case NoAuthKey(key) =>
      var sane := KeySanity(db, Some(key), false, None);
      if sane != Success then (db, sane) else DeleteKey(env, db, Atoi(key))
    case TrustedKey(key, trust) =>
      var sane := KeySanity(db, Some(key), true, None);
      if sane != Success then (db, sane) else (SetTrust(db, Atoi(key), trust), Success)
    case AuthEnable(enable) => if env.hasSystem then (db.(auth := enable), Success) else (db, Warning)
  }

  function Run(env: Env, db: Db, cs: seq<Command>): Db
    decreases |cs|
  {
    if cs == [] then db else Run(env, Apply(env, db, cs[0]).0, cs[1..])
  }

  lemma {:induction false} RunAppend(env: Env, db: Db, a: seq<Command>, b: seq<Command>)
    ensures Run(env, db, a + b) == Run(env, Run(env, db, a), b)
    decreases |a|
  {
    if a == [] {
      assert a + b == b;
    } else {
      assert (a + b)[1..] == a[1..] + b;
      RunAppend(env, Apply(env, db, a[0]).0, a[1..], b);
    }
  }

  // ---------- the run invariant ----------

  predicate KeyOk(id: int, info: KeyInfo) {
    KeyIdInRange(id) && PASSWORD_MIN <= |info.password| <= PASSWORD_MAX
  }

  predicate AssocOk(env: Env, db: Db, name: string, info: AssocInfo) {
    && |name| <= MAX_NAME && ValidName(env, name)
    && VersionInRange(info.version)
    && (info.key.Some? ==> info.key.value in db.keys)
  }

  /** Ids and addresses are unique by the map types; the rest of the run invariant. */
  predicate Inv(env: Env, db: Db) {
    && (forall id :: id in db.keys ==> KeyOk(id, db.keys[id]))
    && (forall n :: n in db.assocs ==> AssocOk(env, db, n, db.assocs[n]))
    && |db.assocs| <= MAX_SERVERS
  }

  lemma SetServerKeepsInv(env: Env, db: Db, c: Command)
    requires Inv(env, db) && c.Server?
    ensures Inv(env, SetServer(env, db, c).0)
  {
    if CheckServer(env, db, c.name, c.version, c.keyId) == Success {
      var info := if c.name in db.assocs then db.assocs[c.name] else DEFAULT_ASSOC;
      assert c.name in db.assocs ==> AssocOk(env, db, c.name, info);
      if c.name in db.assocs || |db.assocs| < MAX_SERVERS {
        AssocPutKeepsInv(env, db, c.name, Overlay(info, c.prefer, c.version, c.keyId));
      }
    }
  }

  /** Whether a row is good depends on the keys only. */
  lemma AssocOkFrame(env: Env, db: Db, db': Db, name: string, info: AssocInfo)
    requires db.keys == db'.keys
    ensures AssocOk(env, db, name, info) <==> AssocOk(env, db', name, info)
  {
  }

  lemma AssocPutKeepsInv(env: Env, db: Db, name: string, info: AssocInfo)
    requires Inv(env, db) && AssocOk(env, db, name, info)
    requires name in db.assocs || |db.assocs| < MAX_SERVERS
    ensures Inv(env, db.(assocs := db.assocs[name := info]))
  {
    var db' := db.(assocs := db.assocs[name := info]);
    forall n | n in db'.assocs
      ensures AssocOk(env, db', n, db'.assocs[n])
    {
      assert n != name ==> AssocOk(env, db, n, db.assocs[n]);
      AssocOkFrame(env, db, db', n, db'.assocs[n]);
    }
  }

  lemma DeleteKeyKeepsInv(env: Env, db: Db, id: int)
    requires Inv(env, db)
    ensures Inv(env, DeleteKey(env, db, id).0)
  {
    var db' := DeleteKey(env, db, id).0;
    assert db'.assocs.Keys == db.assocs.Keys;
  }

  lemma KeyChangeKeepsInv(env: Env, db: Db, id: int, info: KeyInfo)
    requires Inv(env, db) && KeyOk(id, info)
    ensures Inv(env, db.(keys := db.keys[id := info]))
  {
  }

  lemma NoServerCommandKeepsInv(env: Env, db: Db, name: string)
    requires Inv(env, db)
    ensures Inv(env, Apply(env, db, NoServer(name)).0)
  {
  }

  lemma AuthKeyKeepsInv(env: Env, db: Db, key: string, password: string)
    requires Inv(env, db)
    ensures Inv(env, Apply(env, db, AuthKey(key, password)).0)
  {
  }

  lemma NoAuthKeyKeepsInv(env: Env, db: Db, key: string)
    requires Inv(env, db)
    ensures Inv(env, Apply(env, db, NoAuthKey(key)).0)
  {
    DeleteKeyKeepsInv(env, db, Atoi(key));
  }

  lemma TrustedKeyKeepsInv(env: Env, db: Db, key: string, trust: bool)
    requires Inv(env, db)
    ensures Inv(env, Apply(env, db, TrustedKey(key, trust)).0)
  {
    if Atoi(key) in db.keys {
      assert KeyOk(Atoi(key), db.keys[Atoi(key)]);
      KeyChangeKeepsInv(env, db, Atoi(key), db.keys[Atoi(key)].(trusted := trust));
    }
  }

  lemma AuthEnableKeepsInv(env: Env, db: Db, enable: bool)
    requires Inv(env, db)
    ensures Inv(env, Apply(env, db, AuthEnable(enable)).0)
  {
    var db' := Apply(env, db, AuthEnable(enable)).0;
    forall n | n in db.assocs
      ensures AssocOk(env, db', n, db.assocs[n])
    {
      AssocOkFrame(env, db, db', n, db.assocs[n]);
    }
  }

  lemma ApplyKeepsInv(env: Env, db: Db, c: Command)
    requires Inv(env, db)
    ensures Inv(env, Apply(env, db, c).0)
  {
    match c
    case Server(_, _, _, _) => SetServerKeepsInv(env, db, c);
    case NoServer(name) => NoServerCommandKeepsInv(env, db, name);
    case AuthKey(key, password) => AuthKeyKeepsInv(env, db, key, password);
    case NoAuthKey(key) => NoAuthKeyKeepsInv(env, db, key);
    case TrustedKey(key, trust) => TrustedKeyKeepsInv(env, db, key, trust);
    case AuthEnable(enable) => AuthEnableKeepsInv(env, db, enable);
  }

  lemma {:induction false} SubsetSize<T>(a: set<T>, b: set<T>)
    requires a <= b
    ensures |a| <= |b|
  {
    assert b == a + (b - a);
  }

  /** The run invariant holds after every command sequence, for both kinds of key reference. */
  lemma {:induction false} RunKeepsInv(env: Env, db: Db, cs: seq<Command>)
    requires Inv(env, db)
    ensures Inv(env, Run(env, db, cs))
    decreases |cs|
  {
    if cs != [] {
      ApplyKeepsInv(env, db, cs[0]);
      RunKeepsInv(env, Apply(env, db, cs[0]).0, cs[1..]);
    }
  }

  lemma ReachableInv(env: Env, cs: seq<Command>)
    ensures Inv(env, Run(env, EMPTY, cs))
  {
    RunKeepsInv(env, EMPTY, cs);
  }

  // ---------- the limits ----------

  /** Accepted names are at most 57 characters long, 57 included. */
  lemma NameLimit(env: Env, name: string)
    ensures CheckName(env, name) == Success <==> |name| <= 57 && ValidName(env, name)
  {
  }

  function Letters(n: nat): string {
    seq(n, _ => 'a')
  }

  lemma LettersAccepted(env: Env, n: nat)
    ensures CheckName(env, Letters(n)) == Success <==> n <= 57 && (n == 0 ==> ValidName(env, ""))
  {
    if n == 0 {
      assert Letters(n) == "";
    } else {
      assert Letters(n)[0] == 'a';
      assert !HasAllDigits(Letters(n));
    }
  }

  /** A name of exactly 57 characters is stored, one of 58 is not. */
  lemma LongestName(env: Env)
    ensures |Letters(57)| == 57
    ensures Letters(57) in Run(env, EMPTY, [Server(Letters(57), false, None, None)]).assocs
    ensures Run(env, EMPTY, [Server(Letters(58), false, None, None)]) == EMPTY
  {
    LettersAccepted(env, 57);
    LettersAccepted(env, 58);
    var longest, longer := Server(Letters(57), false, None, None), Server(Letters(58), false, None, None);
    assert [longest][1..] == [] && [longer][1..] == [];
    assert Run(env, EMPTY, [longest]) == Apply(env, EMPTY, longest).0;
    assert Run(env, EMPTY, [longer]) == Apply(env, EMPTY, longer).0;
  }

  /** An `ntp server` that reports success has stored its row exactly when the row or room for it was there. */
  lemma SuccessIsStored(env: Env, db: Db, c: Command)
    requires c.Server? && Apply(env, db, c).1 == Success
    ensures c.name in Apply(env, db, c).0.assocs <==> c.name in db.assocs || |db.assocs| < MAX_SERVERS
    ensures c.name !in Apply(env, db, c).0.assocs ==> Apply(env, db, c).0 == db
  {
  }

  /** The address of an `ntp server` is in the table afterwards exactly when it was before, or all checks pass and there is room. */
  lemma ServerStoredExactly(env: Env, db: Db, name: string, prefer: bool, version: Option<string>, keyId: Option<string>)
    ensures name in Apply(env, db, Server(name, prefer, version, keyId)).0.assocs <==>
      || name in db.assocs
      || (&& |name| <= 57 && ValidName(env, name)
          && (keyId.Some? ==> 1 <= Atoi(keyId.value) <= 65534 && Atoi(keyId.value) in db.keys)
          && (version.Some? ==> 3 <= Atoi(version.value) <= 4)
          && |db.assocs| < 8)
  {
  }

  function ServerCommands(names: seq<string>): (cs: seq<Command>)
    ensures |cs| == |names|
  {
    seq(|names|, i requires 0 <= i < |names| => Server(names[i], false, None, None))
  }

  function AsSet<T>(s: seq<T>): set<T> {
    set x | x in s
  }

  lemma {:induction false} AsSetSnoc<T>(s: seq<T>, n: nat)
    requires n < |s|
    ensures AsSet(s[..n + 1]) == AsSet(s[..n]) + {s[n]}
  {
    assert s[..n + 1] == s[..n] + [s[n]];
  }

  lemma {:induction false} DistinctCount<T>(s: seq<T>, n: nat)
    requires NoDuplicates(s) && n <= |s|
    ensures |AsSet(s[..n])| == n
  {
    if n > 0 {
      DistinctCount(s, n - 1);
      AsSetSnoc(s, n - 1);
      assert s[n - 1] !in s[..n - 1];
    }
  }

  /** Every name passes its checks; unfolded on demand. */
  ghost predicate AllAccepted(env: Env, names: seq<string>) {
    forall k {:trigger Unfolded(PlanLayer, k)} :: Unfolded(PlanLayer, k) ==>
      forall i :: 0 <= i < |names| ==> CheckName(env, names[i]) == Success
  }

  /** The addresses stored after the first `n` servers; unfolded on demand. */
  ghost predicate Stored(env: Env, names: seq<string>, n: nat, stored: set<string>) {
    forall k {:trigger Unfolded(RunLayer, k)} :: Unfolded(RunLayer, k) ==>
      n <= |names| && Before(env, ServerCommands(names), n).assocs.Keys == stored
  }

  lemma NextStored(env: Env, names: seq<string>, n: nat, stored: set<string>)
    requires n < |names| && AllAccepted(env, names) && Stored(env, names, n, stored)
    ensures Stored(env, names, n + 1, if |stored| < 8 then stored + {names[n]} else stored)
  {
    assert Unfolded(PlanLayer, 0) && Unfolded(RunLayer, 0);
    BeforeNext(env, ServerCommands(names), n);
  }

  function FirstEight(names: seq<string>, n: nat): set<string>
    requires n <= |names|
  {
    AsSet(names[..if n < 8 then n else 8])
  }

  lemma {:induction false} EightStored(env: Env, names: seq<string>, n: nat)
    requires NoDuplicates(names) && n <= |names| && AllAccepted(env, names)
    ensures Stored(env, names, n, FirstEight(names, n))
  {
    if n == 0 {
      assert FirstEight(names, 0) == {};
    } else {
      EightStored(env, names, n - 1);
      NextStored(env, names, n - 1, FirstEight(names, n - 1));
      RoomForNext(names, n - 1);
    }
  }

  /**
   Of any list of distinct acceptable names the first eight are stored, and the later ones are
   not, although every command reports success (`EveryPlainServerSucceeds`).
   */
  lemma FirstEightStay(env: Env, names: seq<string>, n: nat)
    requires NoDuplicates(names) && n <= |names|
    requires forall i :: 0 <= i < |names| ==> CheckName(env, names[i]) == Success
    ensures Before(env, ServerCommands(names), n).assocs.Keys == AsSet(names[..if n < 8 then n else 8])
  {
    EightStored(env, names, n);
    assert Unfolded(RunLayer, 0);
  }

  lemma EveryPlainServerSucceeds(env: Env, names: seq<string>, i: nat)
    requires i < |names| && CheckName(env, names[i]) == Success
    ensures Apply(env, Before(env, ServerCommands(names), i), ServerCommands(names)[i]).1 == Success
  {
  }

  lemma RoomForNext(names: seq<string>, n: nat)
    requires NoDuplicates(names) && n < |names|
    ensures FirstEight(names, n + 1) == if |FirstEight(names, n)| < 8 then FirstEight(names, n) + {names[n]} else FirstEight(names, n)
  {
    DistinctCount(names, if n < 8 then n else 8);
    AsSetSnoc(names, n);
  }

  /** For instance: a ninth server reports success and is not there. */
  lemma NinthServerIsDropped(env: Env)
    ensures exists cs: seq<Command> ::
      && |cs| == 9 && cs[8].Server?
      && Apply(env, Run(env, EMPTY, cs[..8]), cs[8]).1 == Success
      && cs[8].name !in Run(env, EMPTY, cs).assocs
  {
    var names := seq(9, i requires 0 <= i < 9 => Letters(i + 1));
    forall i | 0 <= i < 9 ensures CheckName(env, names[i]) == Success && |names[i]| == i + 1 {
      LettersAccepted(env, i + 1);
    }
    FirstEightStay(env, names, 9);
    EveryPlainServerSucceeds(env, names, 8);
    var cs := ServerCommands(names);
    assert cs[..9] == cs;
    assert names[8] !in names[..8];
  }

  // ---------- history of an association ----------

  /** The state before the i-th command. */
  function Before(env: Env, cs: seq<Command>, i: nat): Db
    requires i <= |cs|
  {
    Run(env, EMPTY, cs[..i])
  }

  lemma BeforeNext(env: Env, cs: seq<Command>, i: nat)
    requires i < |cs|
    ensures Before(env, cs, i + 1) == Apply(env, Before(env, cs, i), cs[i]).0
  {
    assert cs[..i + 1] == cs[..i] + [cs[i]];
    RunAppend(env, EMPTY, cs[..i], [cs[i]]);
    assert [cs[i]][1..] == [];
  }

  lemma BeforePrefix(env: Env, cs: seq<Command>, n: nat, i: nat)
    requires i <= n <= |cs|
    ensures Before(env, cs[..n], i) == Before(env, cs, i)
  {
    assert cs[..n][..i] == cs[..i];
  }

  /** The i-th command is an `ntp server` for the name that passed all checks. */
  predicate Configures(env: Env, cs: seq<Command>, i: nat, name: string)
    requires i < |cs|
  {
    && cs[i].Server? && cs[i].name == name
    && CheckServer(env, Before(env, cs, i), name, cs[i].version, cs[i].keyId) == Success
  }

  /** The i-th command deleted the key with the id. */
  predicate DropsKey(env: Env, cs: seq<Command>, i: nat, id: int)
    requires i < |cs|
  {
    && cs[i].NoAuthKey? && Atoi(cs[i].key) == id
    && id in Before(env, cs, i).keys && id !in Before(env, cs, i + 1).keys
  }

  /** The row has lived without a break since command `born` inserted it. */
  predicate LivesSince(env: Env, cs: seq<Command>, name: string, born: nat)
    requires born < |cs|
  {
    && name !in Before(env, cs, born).assocs && Configures(env, cs, born, name)
    && forall i :: born < i <= |cs| ==> name in Before(env, cs, i).assocs
  }

  /** `prefer` was given by some command of the row's life. */
  predicate PreferGiven(env: Env, cs: seq<Command>, name: string, born: nat) {
    exists i :: born <= i < |cs| && Configures(env, cs, i, name) && cs[i].prefer
  }

  /** No command from `i` on gives the row a version. */
  predicate NoVersionFrom(env: Env, cs: seq<Command>, name: string, i: nat) {
    forall j :: i <= j < |cs| ==> !(Configures(env, cs, j, name) && cs[j].version.Some?)
  }

  predicate VersionHistory(env: Env, cs: seq<Command>, name: string, born: nat, version: string) {
    || (NoVersionFrom(env, cs, name, born) && version == DEFAULT_VERSION)
    || (exists i :: born <= i < |cs| && Configures(env, cs, i, name) && cs[i].version == Some(version)
                    && NoVersionFrom(env, cs, name, i + 1))
  }

  /** No command from `i` on gives the row a key or deletes the key `id`. */
  predicate KeyUndisturbed(env: Env, cs: seq<Command>, name: string, i: nat, id: int) {
    forall j :: i <= j < |cs| ==>
      !(Configures(env, cs, j, name) && cs[j].keyId.Some?) && !DropsKey(env, cs, j, id)
  }

  predicate KeyGiven(env: Env, cs: seq<Command>, name: string, born: nat, id: int) {
    exists i :: born <= i < |cs| && Configures(env, cs, i, name)
                && cs[i].keyId.Some? && Atoi(cs[i].keyId.value) == id
                && KeyUndisturbed(env, cs, name, i + 1, id)
  }

  /** The attributes of a row are what the commands of its life make them. */
  ghost predicate History(env: Env, cs: seq<Command>, name: string, born: nat, info: AssocInfo) {
    && (info.prefer <==> PreferGiven(env, cs, name, born))
    && VersionHistory(env, cs, name, born, info.version)
    && (forall id :: info.key == Some(id) <==> KeyGiven(env, cs, name, born, id))
  }

  /** What the last command does to a row that was there before. */
  lemma RowAfterLast(env: Env, cs: seq<Command>, name: string)
    requires cs != []
    requires name in Before(env, cs, |cs| - 1).assocs && name in Before(env, cs, |cs|).assocs
    ensures var last := |cs| - 1; var c := cs[last];
      var info, info' := Before(env, cs, last).assocs[name], Before(env, cs, |cs|).assocs[name];
      if Configures(env, cs, last, name) then info' == Overlay(info, c.prefer, c.version, c.keyId)
      else info' == if info.key.Some? && DropsKey(env, cs, last, info.key.value) then info.(key := None) else info
  {
    BeforeNext(env, cs, |cs| - 1);
  }

  /** The commands before the last one look the same with and without it. */
  lemma HistoryPrefix(env: Env, cs: seq<Command>, name: string)
    requires cs != []
    ensures var cs0 := cs[..|cs| - 1];
      forall i :: 0 <= i < |cs0| ==>
        && Configures(env, cs0, i, name) == Configures(env, cs, i, name)
        && forall id :: DropsKey(env, cs0, i, id) == DropsKey(env, cs, i, id)
  {
    var n := |cs| - 1;
    forall i | 0 <= i < n
      ensures Configures(env, cs[..n], i, name) == Configures(env, cs, i, name)
      ensures forall id :: DropsKey(env, cs[..n], i, id) == DropsKey(env, cs, i, id)
    {
      BeforePrefix(env, cs, n, i);
      BeforePrefix(env, cs, n, i + 1);
    }
  }

  lemma PreferStep(env: Env, cs: seq<Command>, name: string, born: nat)
    requires cs != [] && born < |cs|
    ensures PreferGiven(env, cs, name, born) <==>
      PreferGiven(env, cs[..|cs| - 1], name, born) || (Configures(env, cs, |cs| - 1, name) && cs[|cs| - 1].prefer)
  {
    var n := |cs| - 1;
    HistoryPrefix(env, cs, name);
    if PreferGiven(env, cs[..n], name, born) {
      var i :| born <= i < n && Configures(env, cs[..n], i, name) && cs[..n][i].prefer;
      assert Configures(env, cs, i, name) && cs[i].prefer;
    }
    if PreferGiven(env, cs, name, born) {
      var i :| born <= i < |cs| && Configures(env, cs, i, name) && cs[i].prefer;
      if i < n {
        assert Configures(env, cs[..n], i, name) && cs[..n][i].prefer;
      }
    }
  }

  lemma NoVersionStep(env: Env, cs: seq<Command>, name: string, i: nat)
    requires cs != [] && i < |cs|
    requires NoVersionFrom(env, cs[..|cs| - 1], name, i)
    requires !(Configures(env, cs, |cs| - 1, name) && cs[|cs| - 1].version.Some?)
    ensures NoVersionFrom(env, cs, name, i)
  {
    HistoryPrefix(env, cs, name);
    forall j | i <= j < |cs|
      ensures !(Configures(env, cs, j, name) && cs[j].version.Some?)
    {
      if j < |cs| - 1 {
        assert cs[..|cs| - 1][j] == cs[j];
        assert Configures(env, cs[..|cs| - 1], j, name) == Configures(env, cs, j, name);
      }
    }
  }

  lemma VersionStep(env: Env, cs: seq<Command>, name: string, born: nat, version: string)
    requires cs != [] && born < |cs| - 1
    requires VersionHistory(env, cs[..|cs| - 1], name, born, version)
    ensures VersionHistory(env, cs, name, born,
              if Configures(env, cs, |cs| - 1, name) then cs[|cs| - 1].version.GetOr(version) else version)
  {
    var n := |cs| - 1;
    HistoryPrefix(env, cs, name);
    if Configures(env, cs, n, name) && cs[n].version.Some? {
      assert NoVersionFrom(env, cs, name, n + 1);
    } else if NoVersionFrom(env, cs[..n], name, born) && version == DEFAULT_VERSION {
      NoVersionStep(env, cs, name, born);
    } else {
      var i :| born <= i < n && Configures(env, cs[..n], i, name) && cs[..n][i].version == Some(version)
               && NoVersionFrom(env, cs[..n], name, i + 1);
      NoVersionStep(env, cs, name, i + 1);
      assert Configures(env, cs, i, name) && cs[i].version == Some(version);
    }
  }

  lemma UndisturbedStep(env: Env, cs: seq<Command>, name: string, i: nat, id: int)
    requires cs != [] && i < |cs|
    ensures KeyUndisturbed(env, cs, name, i, id) <==>
      && KeyUndisturbed(env, cs[..|cs| - 1], name, i, id)
      && !(Configures(env, cs, |cs| - 1, name) && cs[|cs| - 1].keyId.Some?) && !DropsKey(env, cs, |cs| - 1, id)
  {
    var n := |cs| - 1;
    HistoryPrefix(env, cs, name);
    forall j | i <= j < n
      ensures (Configures(env, cs, j, name) && cs[j].keyId.Some?) == (Configures(env, cs[..n], j, name) && cs[..n][j].keyId.Some?)
      ensures DropsKey(env, cs, j, id) == DropsKey(env, cs[..n], j, id)
    {
      assert cs[..n][j] == cs[j];
    }
  }

  /** A key given before the last command is still the row's, if the last command leaves it alone. */
  lemma KeyStays(env: Env, cs: seq<Command>, name: string, born: nat, id: int)
    requires cs != [] && born < |cs| && KeyGiven(env, cs[..|cs| - 1], name, born, id)
    requires !(Configures(env, cs, |cs| - 1, name) && cs[|cs| - 1].keyId.Some?) && !DropsKey(env, cs, |cs| - 1, id)
    ensures KeyGiven(env, cs, name, born, id)
  {
    var n := |cs| - 1;
    HistoryPrefix(env, cs, name);
    var i :| born <= i < n && Configures(env, cs[..n], i, name) && cs[..n][i].keyId.Some?
             && Atoi(cs[..n][i].keyId.value) == id && KeyUndisturbed(env, cs[..n], name, i + 1, id);
    UndisturbedStep(env, cs, name, i + 1, id);
    assert Configures(env, cs, i, name) && cs[..n][i] == cs[i];
  }

  /** A last command that names a key decides which key the row has. */
  lemma KeyCameLast(env: Env, cs: seq<Command>, name: string, born: nat, id: int)
    requires cs != [] && born < |cs| && KeyGiven(env, cs, name, born, id)
    requires Configures(env, cs, |cs| - 1, name) && cs[|cs| - 1].keyId.Some?
    ensures Atoi(cs[|cs| - 1].keyId.value) == id
  {
    var i :| born <= i < |cs| && Configures(env, cs, i, name) && cs[i].keyId.Some?
             && Atoi(cs[i].keyId.value) == id && KeyUndisturbed(env, cs, name, i + 1, id);
    assert i == |cs| - 1;
  }

  /** Otherwise the key was there before the last command, which left it alone. */
  lemma KeyCameEarlier(env: Env, cs: seq<Command>, name: string, born: nat, id: int)
    requires cs != [] && born < |cs| && KeyGiven(env, cs, name, born, id)
    requires !(Configures(env, cs, |cs| - 1, name) && cs[|cs| - 1].keyId.Some?)
    ensures KeyGiven(env, cs[..|cs| - 1], name, born, id) && !DropsKey(env, cs, |cs| - 1, id)
  {
    var n := |cs| - 1;
    HistoryPrefix(env, cs, name);
    var i :| born <= i < |cs| && Configures(env, cs, i, name) && cs[i].keyId.Some?
             && Atoi(cs[i].keyId.value) == id && KeyUndisturbed(env, cs, name, i + 1, id);
    UndisturbedStep(env, cs, name, i + 1, id);
    assert Configures(env, cs[..n], i, name) && cs[..n][i] == cs[i];
  }

  lemma KeyStep(env: Env, cs: seq<Command>, name: string, born: nat, id: int)
    requires cs != [] && born < |cs|
    ensures KeyGiven(env, cs, name, born, id) <==>
      if Configures(env, cs, |cs| - 1, name) && cs[|cs| - 1].keyId.Some? then Atoi(cs[|cs| - 1].keyId.value) == id
      else KeyGiven(env, cs[..|cs| - 1], name, born, id) && !DropsKey(env, cs, |cs| - 1, id)
  {
    var n := |cs| - 1;
    if KeyGiven(env, cs, name, born, id) {
      if Configures(env, cs, n, name) && cs[n].keyId.Some? {
        KeyCameLast(env, cs, name, born, id);
      } else {
        KeyCameEarlier(env, cs, name, born, id);
      }
    } else if Configures(env, cs, n, name) && cs[n].keyId.Some? {
      assert KeyUndisturbed(env, cs, name, n + 1, id);
    } else if KeyGiven(env, cs[..n], name, born, id) && !DropsKey(env, cs, n, id) {
      KeyStays(env, cs, name, born, id);
    }
  }

  /** A row just inserted carries the options of the inserting command over the defaults. */
  lemma HistoryOfBirth(env: Env, cs: seq<Command>, name: string)
    requires cs != []
    requires name !in Before(env, cs, |cs| - 1).assocs && name in Before(env, cs, |cs|).assocs
    ensures LivesSince(env, cs, name, |cs| - 1)
    ensures History(env, cs, name, |cs| - 1, Before(env, cs, |cs|).assocs[name])
  {
    var n := |cs| - 1;
    BeforeNext(env, cs, n);
    assert Configures(env, cs, n, name);
    PreferStep(env, cs, name, n);
    assert !PreferGiven(env, cs[..n], name, n);
    if cs[n].version.None? {
      assert NoVersionFrom(env, cs, name, n);
    } else {
      assert NoVersionFrom(env, cs, name, n + 1);
    }
    forall id
      ensures KeyGiven(env, cs, name, n, id) <==> cs[n].keyId.Some? && Atoi(cs[n].keyId.value) == id
    {
      KeyStep(env, cs, name, n, id);
    }
  }

  /** A row that was there before the last command keeps its history, extended by that command. */
  lemma HistoryOfLife(env: Env, cs: seq<Command>, name: string, born: nat)
    requires cs != [] && born < |cs| - 1
    requires name in Before(env, cs, |cs| - 1).assocs && name in Before(env, cs, |cs|).assocs
    requires LivesSince(env, cs[..|cs| - 1], name, born)
    requires History(env, cs[..|cs| - 1], name, born, Before(env, cs, |cs| - 1).assocs[name])
    ensures LivesSince(env, cs, name, born)
    ensures History(env, cs, name, born, Before(env, cs, |cs|).assocs[name])
  {
    var n := |cs| - 1;
    var info := Before(env, cs, n).assocs[name];
    HistoryPrefix(env, cs, name);
    BeforePrefix(env, cs, n, born);
    forall i | born < i <= |cs|
      ensures name in Before(env, cs, i).assocs
    {
      if i <= n {
        BeforePrefix(env, cs, n, i);
      }
    }
    RowAfterLast(env, cs, name);
    PreferStep(env, cs, name, born);
    VersionStep(env, cs, name, born, info.version);
    forall id
      ensures Before(env, cs, |cs|).assocs[name].key == Some(id) <==> KeyGiven(env, cs, name, born, id)
    {
      KeyStep(env, cs, name, born, id);
    }
  }

  /**
   History of an association, for every command sequence: since the command that inserted the
   row, the version is the last one given (the default if none), the key is the last one given
   unless that key was deleted since, and `prefer` is set exactly if some command gave it.
   */
  lemma {:induction false} AssocHistory(env: Env, cs: seq<Command>, name: string) returns (born: nat)
    requires name in Run(env, EMPTY, cs).assocs
    ensures born < |cs| && LivesSince(env, cs, name, born)
    ensures History(env, cs, name, born, Run(env, EMPTY, cs).assocs[name])
    decreases |cs|
  {
    assert cs != [];
    var n := |cs| - 1;
    assert cs[..|cs|] == cs;
    if name in Before(env, cs, n).assocs {
      born := AssocHistory(env, cs[..n], name);
      HistoryOfLife(env, cs, name, born);
    } else {
      born := n;
      HistoryOfBirth(env, cs, name);
    }
  }
}
