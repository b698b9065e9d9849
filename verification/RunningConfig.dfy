/** The running configuration: printing the tables as commands, and replaying the commands. */
module RunningConfig {
  import opened Wrappers
  import opened Text
  import opened Enumerations
  import opened Projection
  import opened Cli
  import opened CommandLine
  import opened Unfolding

  // ---------- the printed commands ----------

  function KeyCommands(id: int, info: KeyInfo): seq<Command> {
    [AuthKey(Decimal(id), info.password)] + (if info.trusted then [TrustedKey(Decimal(id), true)] else [])
  }

  /** The printer compares only as many characters as the default version has. */
  function PrintedVersion(version: string): Option<string> {
    if DEFAULT_VERSION <= version then None else Some(version)
  }

  function PrintedKey(key: Option<int>): Option<string> {
    if key.Some? then Some(Decimal(key.value)) else None
  }

  function AssocCommand(name: string, info: AssocInfo): Command {
    Server(name, info.prefer, PrintedVersion(info.version), PrintedKey(info.key))
  }

  function AllKeyCommands(ids: seq<int>, keys: map<int, KeyInfo>): seq<Command>
    requires forall id :: id in ids ==> id in keys
  {
    if ids == [] then [] else KeyCommands(ids[0], keys[ids[0]]) + AllKeyCommands(ids[1..], keys)
  }

  function AllAssocCommands(names: seq<string>, assocs: map<string, AssocInfo>): seq<Command>
    requires forall n :: n in names ==> n in assocs
  {
    if names == [] then [] else [AssocCommand(names[0], assocs[names[0]])] + AllAssocCommands(names[1..], assocs)
  }

  /** The running configuration, rows printed in the orders `ids` and `names`. */
  function Config(ids: seq<int>, names: seq<string>, db: Db): seq<Command>
    requires forall id :: id in ids ==> id in db.keys
    requires forall n :: n in names ==> n in db.assocs
  {
    AllKeyCommands(ids, db.keys) + AllAssocCommands(names, db.assocs)
  }

  lemma {:induction false} AllKeyCommandsAppend(ids: seq<int>, id: int, keys: map<int, KeyInfo>)
    requires id in keys && forall i :: i in ids ==> i in keys
    ensures AllKeyCommands(ids + [id], keys) == AllKeyCommands(ids, keys) + KeyCommands(id, keys[id])
  {
    if ids == [] {
      assert [] + [id] == [id] && [id][1..] == [];
    } else {
      assert (ids + [id])[1..] == ids[1..] + [id];
      AllKeyCommandsAppend(ids[1..], id, keys);
    }
  }

  lemma {:induction false} AllAssocCommandsAppend(names: seq<string>, name: string, assocs: map<string, AssocInfo>)
    requires name in assocs && forall n :: n in names ==> n in assocs
    ensures AllAssocCommands(names + [name], assocs) == AllAssocCommands(names, assocs) + [AssocCommand(name, assocs[name])]
  {
    if names == [] {
      assert [] + [name] == [name] && [name][1..] == [];
    } else {
      assert (names + [name])[1..] == names[1..] + [name];
      AllAssocCommandsAppend(names[1..], name, assocs);
    }
  }

  // ---------- replaying into any tables ----------

  /** Every command succeeds, and an `ntp server` really leaves its row in the table. */
  predicate AllSucceed(env: Env, db: Db, cs: seq<Command>)
    decreases |cs|
  {
    cs == [] ||
    (var (db', outcome) := Apply(env, db, cs[0]);
     outcome == Success && (cs[0].Server? ==> cs[0].name in db'.assocs) && AllSucceed(env, db', cs[1..]))
  }

  lemma {:induction false} AllSucceedAppend(env: Env, db: Db, a: seq<Command>, b: seq<Command>)
    ensures AllSucceed(env, db, a + b) <==> AllSucceed(env, db, a) && AllSucceed(env, Run(env, db, a), b)
    decreases |a|
  {
    if a == [] {
      assert a + b == b;
    } else {
      assert (a + b)[1..] == a[1..] + b;
      AllSucceedAppend(env, Apply(env, db, a[0]).0, a[1..], b);
    }
  }

  /** The first command's transaction, then the others. */
  lemma ReplayCons(env: Env, db: Db, c: Command, db1: Db, cs: seq<Command>)
    requires Apply(env, db, c) == (db1, Success) && (c.Server? ==> c.name in db1.assocs)
    ensures Run(env, db, [c] + cs) == Run(env, db1, cs)
    ensures AllSucceed(env, db, [c] + cs) <==> AllSucceed(env, db1, cs)
  {
    assert ([c] + cs)[1..] == cs;
  }

  /** A printed key over the key that is there: the password is replaced, trust is only added. */
  function MergedKey(keys: map<int, KeyInfo>, id: int, info: KeyInfo): KeyInfo {
    KeyInfo(info.password, info.trusted || (id in keys && keys[id].trusted))
  }

  lemma ReplayKey(env: Env, db: Db, id: int, info: KeyInfo)
    requires KeyOk(id, info)
    ensures Run(env, db, KeyCommands(id, info)) == db.(keys := db.keys[id := MergedKey(db.keys, id, info)])
    ensures AllSucceed(env, db, KeyCommands(id, info))
  {
    AtoiDecimal(id);
    var cs := KeyCommands(id, info);
    var db1 := Apply(env, db, cs[0]).0;
    assert cs[1..] == if info.trusted then [TrustedKey(Decimal(id), true)] else [];
    assert Run(env, db, cs) == Run(env, db1, cs[1..]);
    if info.trusted {
      assert cs[1..][1..] == [];
      assert Run(env, db1, cs[1..]) == Apply(env, db1, cs[1]).0;
    }
  }

  function MergedKeyRows(keys: map<int, KeyInfo>, ids: seq<int>, source: map<int, KeyInfo>): map<int, KeyInfo>
    requires forall id :: id in ids ==> id in source
  {
    map id | id in ids :: MergedKey(keys, id, source[id])
  }

  function MergedKeys(keys: map<int, KeyInfo>, ids: seq<int>, source: map<int, KeyInfo>): map<int, KeyInfo>
    requires forall id :: id in ids ==> id in source
  {
    keys + MergedKeyRows(keys, ids, source)
  }

  lemma UpdateThenMerge<K, V>(m: map<K, V>, k: K, v: V, rest: map<K, V>)
    requires k !in rest
    ensures m[k := v] + rest == m + rest[k := v]
  {
  }

  lemma MergedKeyRowsFrame(keys: map<int, KeyInfo>, id: int, info: KeyInfo, ids: seq<int>, source: map<int, KeyInfo>)
    requires id !in ids && forall i :: i in ids ==> i in source
    ensures MergedKeyRows(keys[id := info], ids, source) == MergedKeyRows(keys, ids, source)
  {
  }

  lemma MergedKeyRowsCons(keys: map<int, KeyInfo>, ids: seq<int>, source: map<int, KeyInfo>)
    requires ids != [] && forall i :: i in ids ==> i in source
    ensures ids[0] in source
    ensures MergedKeyRows(keys, ids, source)
         == MergedKeyRows(keys, ids[1..], source)[ids[0] := MergedKey(keys, ids[0], source[ids[0]])]
  {
    assert forall id :: id in ids <==> id == ids[0] || id in ids[1..];
  }

  lemma {:induction false} MergedKeysCons(keys: map<int, KeyInfo>, ids: seq<int>, source: map<int, KeyInfo>)
    requires ids != [] && NoDuplicates(ids) && forall id :: id in ids ==> id in source
    ensures ids[0] in source
    ensures MergedKeys(keys[ids[0] := MergedKey(keys, ids[0], source[ids[0]])], ids[1..], source) == MergedKeys(keys, ids, source)
  {
    var id0 := ids[0];
    var first := MergedKey(keys, id0, source[id0]);
    assert id0 !in ids[1..];
    MergedKeyRowsFrame(keys, id0, first, ids[1..], source);
    MergedKeyRowsCons(keys, ids, source);
    UpdateThenMerge(keys, id0, first, MergedKeyRows(keys, ids[1..], source));
  }

  lemma {:induction false} ReplayKeys(env: Env, db: Db, ids: seq<int>, source: map<int, KeyInfo>)
    requires NoDuplicates(ids)
    requires forall id :: id in ids ==> id in source && KeyOk(id, source[id])
    ensures Run(env, db, AllKeyCommands(ids, source)) == db.(keys := MergedKeys(db.keys, ids, source))
    ensures AllSucceed(env, db, AllKeyCommands(ids, source))
    decreases |ids|
  {
    if ids == [] {
      assert MergedKeys(db.keys, [], source) == db.keys;
    } else {
      var first := KeyCommands(ids[0], source[ids[0]]);
      var db1 := db.(keys := db.keys[ids[0] := MergedKey(db.keys, ids[0], source[ids[0]])]);
      ReplayKey(env, db, ids[0], source[ids[0]]);
      ReplayKeys(env, db1, ids[1..], source);
      MergedKeysCons(db.keys, ids, source);
      RunAppend(env, db, first, AllKeyCommands(ids[1..], source));
      AllSucceedAppend(env, db, first, AllKeyCommands(ids[1..], source));
    }
  }

  /** A printed association over the one that is there, or over the defaults. */
  function MergedAssoc(assocs: map<string, AssocInfo>, name: string, info: AssocInfo): AssocInfo {
    Overlay(if name in assocs then assocs[name] else DEFAULT_ASSOC, info.prefer, PrintedVersion(info.version), PrintedKey(info.key))
  }

  /** A row that `ntp server` accepts while the key table is `keys`. */
  predicate Replayable(env: Env, keys: map<int, KeyInfo>, name: string, info: AssocInfo) {
    && CheckName(env, name) == Success && VersionInRange(info.version)
    && (info.key.Some? ==> info.key.value in keys && KeyIdInRange(info.key.value))
  }

  /** All of the rows; unfolded on demand. */
  ghost predicate AllReplayable(env: Env, keys: map<int, KeyInfo>, names: seq<string>, source: map<string, AssocInfo>) {
    forall k {:trigger Unfolded(PlanLayer, k)} :: Unfolded(PlanLayer, k) ==>
      forall n :: n in names ==> n in source && Replayable(env, keys, n, source[n])
  }

  lemma ReplayableTail(env: Env, keys: map<int, KeyInfo>, names: seq<string>, source: map<string, AssocInfo>)
    requires names != [] && AllReplayable(env, keys, names, source)
    ensures AllReplayable(env, keys, names[1..], source)
  {
    assert Unfolded(PlanLayer, 0);
  }

  lemma ReplayAssoc(env: Env, db: Db, name: string, info: AssocInfo)
    requires Replayable(env, db.keys, name, info)
    requires name in db.assocs || |db.assocs| < MAX_SERVERS
    ensures Apply(env, db, AssocCommand(name, info))
         == (db.(assocs := db.assocs[name := MergedAssoc(db.assocs, name, info)]), Success)
  {
    if info.key.Some? {
      AtoiDecimal(info.key.value);
    }
  }

  /** The merged rows of the printed names alone. */
  function MergedRows(assocs: map<string, AssocInfo>, names: seq<string>, source: map<string, AssocInfo>): map<string, AssocInfo>
    requires forall n :: n in names ==> n in source
  {
    map n | n in names :: MergedAssoc(assocs, n, source[n])
  }

  function MergedAssocs(assocs: map<string, AssocInfo>, names: seq<string>, source: map<string, AssocInfo>): map<string, AssocInfo>
    requires forall n :: n in names ==> n in source
  {
    assocs + MergedRows(assocs, names, source)
  }

  /** Rows are merged independently of each other. */
  lemma {:induction false} MergedRowsFrame(assocs: map<string, AssocInfo>, name: string, info: AssocInfo,
                                           names: seq<string>, source: map<string, AssocInfo>)
    requires name !in names && forall n :: n in names ==> n in source
    ensures MergedRows(assocs[name := info], names, source) == MergedRows(assocs, names, source)
  {
  }

  lemma {:induction false} MergedRowsCons(assocs: map<string, AssocInfo>, names: seq<string>, source: map<string, AssocInfo>)
    requires names != [] && forall n :: n in names ==> n in source
    ensures names[0] in source
    ensures MergedRows(assocs, names, source)
         == MergedRows(assocs, names[1..], source)[names[0] := MergedAssoc(assocs, names[0], source[names[0]])]
  {
    assert forall n :: n in names <==> n == names[0] || n in names[1..];
  }

  lemma {:induction false} MergedAssocsCons(assocs: map<string, AssocInfo>, names: seq<string>, source: map<string, AssocInfo>)
    requires names != [] && NoDuplicates(names) && forall n :: n in names ==> n in source
    ensures names[0] in source
    ensures MergedAssocs(assocs[names[0] := MergedAssoc(assocs, names[0], source[names[0]])], names[1..], source)
         == MergedAssocs(assocs, names, source)
  {
    var n0 := names[0];
    var first := MergedAssoc(assocs, n0, source[n0]);
    assert n0 !in names[1..];
    MergedRowsCons(assocs, names, source);
    MergedRowsFrame(assocs, n0, first, names[1..], source);
    UpdateThenMerge(assocs, n0, first, MergedRows(assocs, names[1..], source));
  }

  function NameSet(names: seq<string>): set<string> {
    set n | n in names
  }

  /** The commands succeed and lead from `db` to `db'`; unfolded on demand. */
  ghost predicate ReplaysTo(env: Env, db: Db, cs: seq<Command>, db': Db) {
    forall k {:trigger Unfolded(RunLayer, k)} :: Unfolded(RunLayer, k) ==>
      Run(env, db, cs) == db' && AllSucceed(env, db, cs)
  }

  lemma ReplaysNothing(env: Env, db: Db)
    ensures ReplaysTo(env, db, [], db)
  {
  }

  lemma {:induction false} ReplayAssocsTo(env: Env, db: Db, names: seq<string>, source: map<string, AssocInfo>)
    requires NoDuplicates(names)
    requires (forall n :: n in names ==> n in source) && AllReplayable(env, db.keys, names, source)
    requires |db.assocs.Keys + NameSet(names)| <= MAX_SERVERS
    ensures ReplaysTo(env, db, AllAssocCommands(names, source), db.(assocs := MergedAssocs(db.assocs, names, source)))
    decreases |names|
  {
    if names == [] {
      MergedNothing(db.assocs, source);
      ReplaysNothing(env, db);
    } else {
      var db1 := FirstMerged(env, db, names, source);
      DistinctTail(names);
      ReplayableTail(env, db.keys, names, source);
      ReplayAssocsTo(env, db1, names[1..], source);
      MergedRest(db, db1, names, source);
      ReplayFirst(env, db, db1, names, source, db.(assocs := MergedAssocs(db.assocs, names, source)));
    }
  }

  lemma MergedNothing(assocs: map<string, AssocInfo>, source: map<string, AssocInfo>)
    ensures MergedAssocs(assocs, [], source) == assocs
  {
  }

  lemma DistinctTail<T>(s: seq<T>)
    requires s != [] && NoDuplicates(s)
    ensures NoDuplicates(s[1..]) && forall x :: x in s[1..] ==> x in s
  {
  }

  lemma ReplayAssocs(env: Env, db: Db, names: seq<string>, source: map<string, AssocInfo>)
    requires NoDuplicates(names)
    requires (forall n :: n in names ==> n in source) && AllReplayable(env, db.keys, names, source)
    requires |db.assocs.Keys + NameSet(names)| <= MAX_SERVERS
    ensures Run(env, db, AllAssocCommands(names, source)) == db.(assocs := MergedAssocs(db.assocs, names, source))
    ensures AllSucceed(env, db, AllAssocCommands(names, source))
  {
    ReplayAssocsTo(env, db, names, source);
    assert Unfolded(RunLayer, 0);
  }

  lemma MergedRest(db: Db, db1: Db, names: seq<string>, source: map<string, AssocInfo>)
    requires names != [] && NoDuplicates(names) && forall n :: n in names ==> n in source
    requires db1 == db.(assocs := db.assocs[names[0] := MergedAssoc(db.assocs, names[0], source[names[0]])])
    ensures db1.(assocs := MergedAssocs(db1.assocs, names[1..], source)) == db.(assocs := MergedAssocs(db.assocs, names, source))
  {
    MergedAssocsCons(db.assocs, names, source);
  }

  /** The tables after the first of several associations, with room for the others. */
  lemma FirstMerged(env: Env, db: Db, names: seq<string>, source: map<string, AssocInfo>) returns (db1: Db)
    requires names != [] && forall n :: n in names ==> n in source
    requires |db.assocs.Keys + NameSet(names)| <= MAX_SERVERS
    ensures db1 == db.(assocs := db.assocs[names[0] := MergedAssoc(db.assocs, names[0], source[names[0]])])
    ensures |db1.assocs.Keys + NameSet(names[1..])| <= MAX_SERVERS
  {
    db1 := db.(assocs := db.assocs[names[0] := MergedAssoc(db.assocs, names[0], source[names[0]])]);
    RoomForFirst(db.assocs, names, db1.assocs[names[0]]);
  }

  /** The first of several associations replayed, then the others. */
  lemma ReplayFirst(env: Env, db: Db, db1: Db, names: seq<string>, source: map<string, AssocInfo>, db': Db)
    requires names != [] && (forall n :: n in names ==> n in source) && AllReplayable(env, db.keys, names, source)
    requires |db.assocs.Keys + NameSet(names)| <= MAX_SERVERS
    requires db1 == db.(assocs := db.assocs[names[0] := MergedAssoc(db.assocs, names[0], source[names[0]])])
    requires ReplaysTo(env, db1, AllAssocCommands(names[1..], source), db')
    ensures ReplaysTo(env, db, AllAssocCommands(names, source), db')
  {
    assert Unfolded(PlanLayer, 0) && Unfolded(RunLayer, 0);
    var n := names[0];
    RoomForFirst(db.assocs, names, db1.assocs[n]);
    ReplayAssoc(env, db, n, source[n]);
    ReplayCons(env, db, AssocCommand(n, source[n]), db1, AllAssocCommands(names[1..], source));
  }

  /** There is room for the first row, and afterwards for the others. */
  lemma {:induction false} RoomForFirst(assocs: map<string, AssocInfo>, names: seq<string>, info: AssocInfo)
    requires names != [] && |assocs.Keys + NameSet(names)| <= MAX_SERVERS
    ensures names[0] in assocs || |assocs| < MAX_SERVERS
    ensures |assocs[names[0] := info].Keys + NameSet(names[1..])| <= MAX_SERVERS
  {
    var n := names[0];
    assert n in NameSet(names);
    if n !in assocs {
      SubsetSize(assocs.Keys + {n}, assocs.Keys + NameSet(names));
      assert |assocs.Keys + {n}| == |assocs.Keys| + 1;
    }
    assert |assocs[n := info].Keys + NameSet(names[1..])| == |assocs.Keys + NameSet(names)| by {
      NameSetCons(assocs.Keys, names);
      assert assocs[n := info].Keys == assocs.Keys + {n};
    }
  }

  lemma NameSetCons(known: set<string>, names: seq<string>)
    requires names != []
    ensures (known + {names[0]}) + NameSet(names[1..]) == known + NameSet(names)
  {
    assert forall n :: n in names <==> n == names[0] || n in names[1..];
  }

  /** The rows of a good state can be replayed into any key table that has its keys. */
  lemma RowsReplayable(env: Env, source: Db, keys: map<int, KeyInfo>, names: seq<string>)
    requires Inv(env, source) && source.keys.Keys <= keys.Keys && forall n :: n in names ==> n in source.assocs
    ensures AllReplayable(env, keys, names, source.assocs)
  {
    forall n | n in names
      ensures Replayable(env, keys, n, source.assocs[n])
    {
      var info := source.assocs[n];
      assert AssocOk(env, source, n, info);
      assert info.key.Some? ==> KeyOk(info.key.value, source.keys[info.key.value]);
    }
  }

  lemma ConfigFits(env: Env, db: Db, source: Db, ids: seq<int>, names: seq<string>)
    requires Inv(env, source)
    requires Enumerates(ids, source.keys.Keys) && Enumerates(names, source.assocs.Keys)
    requires db.assocs.Keys <= source.assocs.Keys
    ensures source.keys.Keys <= MergedKeys(db.keys, ids, source.keys).Keys
    ensures |db.assocs.Keys + NameSet(names)| <= MAX_SERVERS
  {
    assert db.assocs.Keys + NameSet(names) == source.assocs.Keys;
  }

  lemma ConfigKeys(env: Env, db: Db, source: Db, ids: seq<int>)
    requires Inv(env, source) && Enumerates(ids, source.keys.Keys)
    ensures Run(env, db, AllKeyCommands(ids, source.keys)) == db.(keys := MergedKeys(db.keys, ids, source.keys))
    ensures AllSucceed(env, db, AllKeyCommands(ids, source.keys))
  {
    ReplayKeys(env, db, ids, source.keys);
  }

  /** Replaying a configuration into any tables that hold no other associations. */
  lemma ReplayConfig(env: Env, db: Db, source: Db, ids: seq<int>, names: seq<string>)
    requires Inv(env, source)
    requires Enumerates(ids, source.keys.Keys) && Enumerates(names, source.assocs.Keys)
    requires db.assocs.Keys <= source.assocs.Keys
    ensures Run(env, db, Config(ids, names, source)) ==
      Db(MergedKeys(db.keys, ids, source.keys), MergedAssocs(db.assocs, names, source.assocs), db.auth)
    ensures AllSucceed(env, db, Config(ids, names, source))
  {
    var db1 := db.(keys := MergedKeys(db.keys, ids, source.keys));
    var db2 := db1.(assocs := MergedAssocs(db1.assocs, names, source.assocs));
    ConfigFits(env, db, source, ids, names);
    ConfigKeys(env, db, source, ids);
    RowsReplayable(env, source, db1.keys, names);
    ReplayAssocsTo(env, db1, names, source.assocs);
    ReplaysThen(env, db, AllKeyCommands(ids, source.keys), db1, AllAssocCommands(names, source.assocs), db2);
  }

  lemma ReplaysThen(env: Env, db: Db, a: seq<Command>, db1: Db, b: seq<Command>, db2: Db)
    requires Run(env, db, a) == db1 && AllSucceed(env, db, a) && ReplaysTo(env, db1, b, db2)
    ensures Run(env, db, a + b) == db2 && AllSucceed(env, db, a + b)
  {
    assert Unfolded(RunLayer, 0);
    RunAppend(env, db, a, b);
    AllSucceedAppend(env, db, a, b);
  }

  // ---------- the two theorems ----------

  /** Every version that only looks like the default to the printer is the default. */
  predicate PlainVersions(db: Db) {
    forall n :: n in db.assocs && DEFAULT_VERSION <= db.assocs[n].version ==> db.assocs[n].version == DEFAULT_VERSION
  }

  /**
   Running-config round trip: for every reachable state, every printing order and both kinds
   of key reference, replaying the printed commands from empty tables succeeds at every command
   and rebuilds the key table.  It rebuilds the association table too if and only if no
   association's version strictly extends the default version.
   */
  lemma RebuildsExactly(env: Env, history: seq<Command>, ids: seq<int>, names: seq<string>)
    requires var db := Run(env, EMPTY, history); Enumerates(ids, db.keys.Keys) && Enumerates(names, db.assocs.Keys)
    ensures var db := Run(env, EMPTY, history); var rebuilt := Run(env, EMPTY, Config(ids, names, db));
      && AllSucceed(env, EMPTY, Config(ids, names, db))
      && rebuilt.keys == db.keys
      && (rebuilt.assocs == db.assocs <==> PlainVersions(db))
  {
    var db := Run(env, EMPTY, history);
    ReachableInv(env, history);
    ReplayConfig(env, EMPTY, db, ids, names);
    MergeIntoNothing(db, ids, names);
  }

  /** The handlers accept a version that only starts with the default, and then replay does not rebuild it. */
  lemma ExtendedVersionIsLost(env: Env, ids: seq<int>, names: seq<string>)
    requires Enumerates(ids, Run(env, EMPTY, [EXTENDED_VERSION]).keys.Keys)
    requires Enumerates(names, Run(env, EMPTY, [EXTENDED_VERSION]).assocs.Keys)
    ensures var db := Run(env, EMPTY, [EXTENDED_VERSION]);
      && Apply(env, EMPTY, EXTENDED_VERSION).1 == Success
      && "a" in db.assocs && db.assocs["a"].version == "3x"
      && Run(env, EMPTY, Config(ids, names, db)).assocs != db.assocs
  {
    assert [EXTENDED_VERSION][1..] == [];
    assert Run(env, EMPTY, [EXTENDED_VERSION]) == Apply(env, EMPTY, EXTENDED_VERSION).0;
    LettersAccepted(env, 1);
    assert Letters(1) == "a";
    RebuildsExactly(env, [EXTENDED_VERSION], ids, names);
  }

  const EXTENDED_VERSION := Server("a", false, Some("3x"), None)

  /** What an association looks like after printing and replaying it from nothing. */
  function Normalised(info: AssocInfo): AssocInfo {
    if DEFAULT_VERSION <= info.version then info.(version := DEFAULT_VERSION) else info
  }

  lemma MergeIntoNothing(db: Db, ids: seq<int>, names: seq<string>)
    requires Enumerates(ids, db.keys.Keys) && Enumerates(names, db.assocs.Keys)
    ensures MergedKeys(map[], ids, db.keys) == db.keys
    ensures MergedAssocs(map[], names, db.assocs) == db.assocs <==> PlainVersions(db)
  {
    var merged := MergedAssocs(map[], names, db.assocs);
    forall n | n in db.assocs
      ensures n in merged && merged[n] == Normalised(db.assocs[n])
    {
      if db.assocs[n].key.Some? {
        AtoiDecimal(db.assocs[n].key.value);
      }
    }
    assert merged.Keys == db.assocs.Keys;
    if PlainVersions(db) {
      assert forall n :: n in db.assocs ==> Normalised(db.assocs[n]) == db.assocs[n];
    } else {
      var n :| n in db.assocs && DEFAULT_VERSION <= db.assocs[n].version && db.assocs[n].version != DEFAULT_VERSION;
      assert merged[n] != db.assocs[n];
    }
  }

  /**
   Replay is a fixed point: feeding the configuration of a reachable state back into that state
   changes nothing, whatever the versions are and even with the table full.
   */
  lemma ReplayIsFixedPoint(env: Env, history: seq<Command>, ids: seq<int>, names: seq<string>)
    requires var db := Run(env, EMPTY, history); Enumerates(ids, db.keys.Keys) && Enumerates(names, db.assocs.Keys)
    ensures var db := Run(env, EMPTY, history);
      Run(env, db, Config(ids, names, db)) == db && AllSucceed(env, db, Config(ids, names, db))
  {
    var db := Run(env, EMPTY, history);
    ReachableInv(env, history);
    ReplayConfig(env, db, db, ids, names);
    MergeIntoSelf(db, ids, names);
  }

  lemma MergeIntoSelf(db: Db, ids: seq<int>, names: seq<string>)
    requires Enumerates(ids, db.keys.Keys) && Enumerates(names, db.assocs.Keys)
    ensures MergedKeys(db.keys, ids, db.keys) == db.keys
    ensures MergedAssocs(db.assocs, names, db.assocs) == db.assocs
  {
    forall n | n in db.assocs
      ensures MergedAssoc(db.assocs, n, db.assocs[n]) == db.assocs[n]
    {
      if db.assocs[n].key.Some? {
        AtoiDecimal(db.assocs[n].key.value);
      }
    }
  }

  // ---------- the same as text ----------

  predicate Printable(cs: seq<Command>) {
    forall i :: 0 <= i < |cs| ==> TypedCommand(cs[i])
  }

  function PrintAll(cs: seq<Command>): seq<string> {
    if cs == [] then [] else [Print(cs[0])] + PrintAll(cs[1..])
  }

  lemma {:induction false} PrintAllAppend(a: seq<Command>, b: seq<Command>)
    ensures PrintAll(a + b) == PrintAll(a) + PrintAll(b)
  {
    if a == [] {
      assert a + b == b;
    } else {
      assert (a + b)[1..] == a[1..] + b;
      PrintAllAppend(a[1..], b);
    }
  }

  lemma PrintOne(c: Command)
    ensures PrintAll([c]) == [Print(c)]
  {
    assert [c][1..] == [];
  }

  /** The text of a running configuration. */
  function ConfigText(ids: seq<int>, names: seq<string>, db: Db): seq<string>
    requires forall id :: id in ids ==> id in db.keys
    requires forall n :: n in names ==> n in db.assocs
  {
    PrintAll(Config(ids, names, db))
  }

  /** `lines` is a running configuration of the tables, rows in the orders given. */
  ghost predicate PrintedAs(db: Db, ids: seq<int>, names: seq<string>, lines: seq<string>) {
    && Enumerates(ids, db.keys.Keys) && Enumerates(names, db.assocs.Keys)
    && lines == ConfigText(ids, names, db)
  }

  lemma {:induction false} RunPrinted(env: Env, db: Db, cs: seq<Command>)
    requires Printable(cs)
    ensures RunLines(env, db, PrintAll(cs)) == Run(env, db, cs)
    decreases |cs|
  {
    if cs != [] {
      PrintRoundTrip(cs[0]);
      assert PrintAll(cs)[1..] == PrintAll(cs[1..]);
      RunPrinted(env, Apply(env, db, cs[0]).0, cs[1..]);
    }
  }

  lemma DecimalIsKeyToken(id: int)
    requires KeyIdInRange(id)
    ensures KeyToken(Decimal(id))
  {
  }

  lemma {:induction false} KeyCommandsPrintable(ids: seq<int>, keys: map<int, KeyInfo>)
    requires forall id :: id in ids ==> id in keys && KeyOk(id, keys[id]) && IsToken(keys[id].password)
    ensures Printable(AllKeyCommands(ids, keys))
  {
    if ids != [] {
      assert KeyOk(ids[0], keys[ids[0]]);
      DecimalIsKeyToken(ids[0]);
      KeyCommandsPrintable(ids[1..], keys);
    }
  }

  lemma {:induction false} AssocCommandsPrintable(env: Env, db: Db, names: seq<string>)
    requires Inv(env, db) && Typed(db) && forall n :: n in names ==> n in db.assocs
    ensures Printable(AllAssocCommands(names, db.assocs))
  {
    if names != [] {
      AssocCommandsPrintable(env, db, names[1..]);
      PrintableCons(AssocCommand(names[0], db.assocs[names[0]]), AllAssocCommands(names[1..], db.assocs));
    }
  }

  lemma PrintableCons(c: Command, cs: seq<Command>)
    requires TypedCommand(c) && Printable(cs)
    ensures Printable([c] + cs)
  {
  }

  lemma ConfigPrintable(env: Env, db: Db, ids: seq<int>, names: seq<string>)
    requires Inv(env, db) && Typed(db)
    requires Enumerates(ids, db.keys.Keys) && Enumerates(names, db.assocs.Keys)
    ensures Printable(Config(ids, names, db))
  {
    KeyCommandsPrintable(ids, db.keys);
    AssocCommandsPrintable(env, db, names);
  }

  /** A plain number with value 3 that starts with the digit 3 is the text "3". */
  lemma {:induction false} VersionTokensArePlain(w: string)
    requires VersionToken(w) && DEFAULT_VERSION <= w
    ensures w == DEFAULT_VERSION
  {
    if |w| > 1 {
      LeadingDigit(w);
    }
  }

  lemma {:induction false} LeadingDigit(w: string)
    requires |w| > 1 && AllDigits(w) && w[0] == '3'
    ensures DigitsValue(w) >= 30
    decreases |w|
  {
    var front := w[..|w| - 1];
    if |w| > 2 {
      LeadingDigit(front);
    } else {
      assert front[..0] == "";
      assert DigitsValue(front) == 3;
    }
  }

  /**
   The round trip for what an operator types: after any typed lines, printing the running
   configuration and typing it into empty tables rebuilds both tables exactly.
   */
  lemma TypedRoundTrip(env: Env, typed: seq<string>, ids: seq<int>, names: seq<string>)
    requires var db := RunLines(env, EMPTY, typed); Enumerates(ids, db.keys.Keys) && Enumerates(names, db.assocs.Keys)
    ensures var db := RunLines(env, EMPTY, typed);
      && RunLines(env, EMPTY, ConfigText(ids, names, db)).keys == db.keys
      && RunLines(env, EMPTY, ConfigText(ids, names, db)).assocs == db.assocs
      && RunLines(env, db, ConfigText(ids, names, db)) == db
  {
    var db := RunLines(env, EMPTY, typed);
    RunLinesKeeps(env, EMPTY, typed);
    ConfigPrintable(env, db, ids, names);
    var cs := Config(ids, names, db);
    RunPrinted(env, EMPTY, cs);
    RunPrinted(env, db, cs);
    forall n | n in db.assocs && DEFAULT_VERSION <= db.assocs[n].version
      ensures db.assocs[n].version == DEFAULT_VERSION
    {
      VersionTokensArePlain(db.assocs[n].version);
    }
    var history := TypedHistory(env, EMPTY, typed);
    RebuildsExactly(env, history, ids, names);
    ReplayIsFixedPoint(env, history, ids, names);
  }

  /** The commands among the typed lines. */
  lemma {:induction false} TypedHistory(env: Env, db: Db, typed: seq<string>) returns (history: seq<Command>)
    ensures Run(env, db, history) == RunLines(env, db, typed)
    decreases |typed|
  {
    if typed == [] {
      history := [];
    } else {
      history := TypedHistory(env, ExecLine(env, db, typed[0]), typed[1..]);
      if ParseLine(typed[0]).Some? {
        var c := ParseLine(typed[0]).value;
        assert ([c] + history)[1..] == history;
        history := [c] + history;
      }
    }
  }
}
