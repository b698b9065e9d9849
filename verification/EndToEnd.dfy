/** From command lines to the NTP daemon: the components put together. */
module EndToEnd {
  import opened Wrappers
  import opened Text
  import opened Enumerations
  import Ntpd
  import CommandText
  import opened Plans
  import opened Convergence
  import opened Projection
  import opened Cli
  import opened CommandLine
  import opened TableRows
  import D = Daemon
  import opened Unfolding

  // ---------- the tables as the daemon's replica shows them ----------

  /** The daemon's view of one association row: the key reference followed to the key's id. */
  function ReplicaRow(row: AssocRecord, keyRows: map<Uuid, KeyRow>): AssocRow {
    AssocRow(row.vrf, row.address, if row.key.Some? && row.key.value in keyRows then Some(keyRows[row.key.value].keyId) else None, row.attributes)
  }

  predicate KeysShown(rows: seq<KeyRow>, db: Db) {
    && UniqueKeyIds(rows)
    && (forall row :: row in rows ==> row.keyId in db.keys && db.keys[row.keyId] == KeyInfoOf(row))
    && (forall id :: id in db.keys ==> exists row :: row in rows && row.keyId == id)
  }

  /** What the daemon makes of the row is what the transaction machine says about the address. */
  predicate RowShown(row: AssocRow, db: Db, vrf: string) {
    && row.vrf == vrf && row.address in db.assocs
    && Prefer in row.attributes && (row.attributes[Prefer] == TRUE_STR || row.attributes[Prefer] == FALSE_STR)
    && AssocInfo(row.key, VersionOf(row.attributes), PreferOf(row.attributes)) == db.assocs[row.address]
  }

  predicate AssocsShown(rows: seq<AssocRow>, db: Db, vrf: string) {
    && (forall i, j :: 0 <= i < j < |rows| ==> rows[i].address != rows[j].address)
    && (forall row :: row in rows ==> RowShown(row, db, vrf))
    && (forall n :: n in db.assocs ==> exists row :: row in rows && row.address == n)
  }

  /** Every flag stored among the System rows is the one that was set, and a flag that is on is stored. */
  predicate FlagShown(rows: seq<SystemRow>, auth: bool) {
    && (forall i :: 0 <= i < |rows| && "authentication_enable" in rows[i].ntpConfig ==>
          (rows[i].ntpConfig["authentication_enable"] == "true" <==> auth))
    && (auth ==> exists i :: 0 <= i < |rows| && "authentication_enable" in rows[i].ntpConfig)
  }

  /** The replica holds the tables `db`, rows in some order. */
  predicate Replicates(snap: Snapshot, db: Db, vrf: string) {
    && FlagShown(snap.systems, db.auth) && KeysShown(snap.keys, db) && AssocsShown(snap.assocs, db, vrf)
  }

  /** The key rows of the tables, walked in any order, show the transaction machine's keys. */
  lemma KeyRowsShown(t: Tables, db: Db, order: seq<Uuid>, rows: seq<KeyRow>)
    requires Shows(t, db) && Enumerates(order, t.keyRows.Keys)
    requires |rows| == |order| && forall i :: 0 <= i < |order| ==> rows[i] == t.keyRows[order[i]]
    ensures KeysShown(rows, db)
  {
    forall i | 0 <= i < |rows|
      ensures rows[i].keyId in t.keyIndex && t.keyIndex[rows[i].keyId] == order[i]
      ensures rows[i].keyId in db.keys && db.keys[rows[i].keyId] == KeyInfoOf(rows[i])
    {
      ShowsKeyAt(t, db, rows[i].keyId);
    }
    forall id | id in db.keys
      ensures exists row :: row in rows && row.keyId == id
    {
      ShowsKeyAt(t, db, id);
      var i :| 0 <= i < |order| && order[i] == t.keyIndex[id];
      assert rows[i] in rows && rows[i].keyId == id;
    }
  }

  lemma ReplicaRowShown(t: Tables, db: Db, u: Uuid)
    requires Shows(t, db) && u in t.assocRows
    ensures var row := t.assocRows[u];
      && row.address in t.assocIndex && t.assocIndex[row.address] == u
      && RowShown(ReplicaRow(row, t.keyRows), db, t.vrf)
  {
    ShowsAssocAt(t, db, t.assocRows[u].address);
    assert Unfolded(AttributeLayer, 0);
  }

  /** The association rows, keys looked up, show the transaction machine's associations. */
  lemma AssocRowsShown(t: Tables, db: Db, order: seq<Uuid>, rows: seq<AssocRow>)
    requires Shows(t, db) && Enumerates(order, t.assocRows.Keys)
    requires |rows| == |order| && forall i :: 0 <= i < |order| ==> rows[i] == ReplicaRow(t.assocRows[order[i]], t.keyRows)
    ensures AssocsShown(rows, db, t.vrf)
  {
    forall i | 0 <= i < |rows|
      ensures rows[i].address in t.assocIndex && t.assocIndex[rows[i].address] == order[i]
      ensures RowShown(rows[i], db, t.vrf)
    {
      ReplicaRowShown(t, db, order[i]);
    }
    forall n | n in db.assocs
      ensures exists row :: row in rows && row.address == n
    {
      ShowsAssocAt(t, db, n);
      var i :| 0 <= i < |order| && order[i] == t.assocIndex[n];
      ReplicaRowShown(t, db, order[i]);
      assert rows[i] in rows && rows[i].address == n;
    }
  }

  /** The replica's content when the rows are walked in the orders given. */
  function SnapshotOf(t: Tables, systems: seq<SystemRow>, keyOrder: seq<Uuid>, assocOrder: seq<Uuid>): Snapshot
    requires forall u :: u in keyOrder ==> u in t.keyRows
    requires forall u :: u in assocOrder ==> u in t.assocRows
  {
    Snapshot(systems,
             seq(|keyOrder|, i requires 0 <= i < |keyOrder| => t.keyRows[keyOrder[i]]),
             seq(|assocOrder|, i requires 0 <= i < |assocOrder| => ReplicaRow(t.assocRows[assocOrder[i]], t.keyRows)))
  }

  /** One System row, if there is any, has the configuration that the handlers write; no other row has the flag. */
  ghost predicate HoldConfig(systems: seq<SystemRow>, config: map<string, string>) {
    || (systems == [] && config == map[])
    || exists p :: 0 <= p < |systems| && systems[p].ntpConfig == config
         && forall i :: 0 <= i < |systems| && i != p ==> "authentication_enable" !in systems[i].ntpConfig
  }

  lemma ConfigShown(t: Tables, db: Db, systems: seq<SystemRow>)
    requires Shows(t, db) && HoldConfig(systems, t.ntpConfig)
    ensures FlagShown(systems, db.auth)
  {
    assert Unfolded(TableLayer, 0);
  }

  /** What the daemon reads is the flag that was set. */
  lemma FlagIsRead(rows: seq<SystemRow>, auth: bool)
    requires FlagShown(rows, auth)
    ensures AuthOf(rows) == "true" <==> auth
  {
    LastFlagIsRead(rows);
    if auth {
      var i :| 0 <= i < |rows| && "authentication_enable" in rows[i].ntpConfig;
      var _ := LastFlag(rows, i);
    }
  }

  lemma LastFlag(rows: seq<SystemRow>, i: nat) returns (last: nat)
    requires i < |rows| && "authentication_enable" in rows[i].ntpConfig
    ensures LastWithFlag(rows, last)
    decreases |rows| - i
  {
    if j :| i < j < |rows| && "authentication_enable" in rows[j].ntpConfig {
      last := LastFlag(rows, j);
    } else {
      last := i;
    }
  }

  /** A replica of the command handlers' tables replicates the transaction machine's state. */
  lemma TablesReplicate(t: Tables, db: Db, systems: seq<SystemRow>, keyOrder: seq<Uuid>, assocOrder: seq<Uuid>)
    requires Shows(t, db) && HoldConfig(systems, t.ntpConfig)
    requires Enumerates(keyOrder, t.keyRows.Keys) && Enumerates(assocOrder, t.assocRows.Keys)
    ensures Replicates(SnapshotOf(t, systems, keyOrder, assocOrder), db, t.vrf)
  {
    var snap := SnapshotOf(t, systems, keyOrder, assocOrder);
    KeyRowsShown(t, db, keyOrder, snap.keys);
    AssocRowsShown(t, db, assocOrder, snap.assocs);
    ConfigShown(t, db, systems);
  }

  // ---------- the tables are good for the daemon ----------

  /** Everything the daemon needs of its tables follows from the command line's invariant. */
  lemma ReplicaTablesOk(env: Env, db: Db, snap: Snapshot, vrf: string)
    requires Inv(env, db) && Typed(db) && Replicates(snap, db, vrf)
    ensures D.TablesOk(snap)
  {
    forall row | row in snap.keys
      ensures 1 <= row.keyId < Ntpd.CONTROL_KEY && IsToken(row.password)
    {
      assert KeyOk(row.keyId, db.keys[row.keyId]);
    }
    forall row | row in snap.assocs
      ensures IsToken(row.address) && IsToken(Attribute(row.attributes, Version, DEFAULT_VERSION))
    {
      RangeTokenIsToken(db.assocs[row.address].version, 3, 4);
    }
  }

  function ParamsOfInfo(info: AssocInfo): Ntpd.Params {
    Ntpd.Params(info.version, info.key, info.prefer)
  }

  /** The NTP daemon runs exactly the rows of the association table. */
  predicate ServesTable(s: Ntpd.State, db: Db) {
    && s.peers.Keys == db.assocs.Keys
    && forall n :: n in db.assocs ==> s.peers[n].params == ParamsOfInfo(db.assocs[n])
  }

  /** The NTP daemon has loaded and trusts the trusted rows of the key table, if authentication is on. */
  predicate TrustsTable(s: Ntpd.State, pw: string, db: Db) {
    && s.trusted == {Ntpd.CONTROL_KEY} + TrustedPasswords(db).Keys
    && s.loaded == map[Ntpd.CONTROL_KEY := pw] + TrustedPasswords(db)
  }

  lemma ShownParams(row: AssocRow, db: Db, vrf: string)
    requires RowShown(row, db, vrf)
    ensures ParamsOf(RecordAt(row, row.address)) == ParamsOfInfo(db.assocs[row.address])
  {
  }

  lemma RowsServed(db: Db, rows: seq<AssocRow>, vrf: string, m: NtpaMap, s: Ntpd.State)
    requires AssocsShown(rows, db, vrf) && ProjectsAssocs(rows, m) && Represents(s, m)
    ensures forall n :: n in db.assocs ==> n in s.peers && s.peers[n].params == ParamsOfInfo(db.assocs[n])
  {
    forall n | n in db.assocs
      ensures n in s.peers && s.peers[n].params == ParamsOfInfo(db.assocs[n])
    {
      var row :| row in rows && row.address == n;
      assert (row.vrf, n) in m;
      ShownParams(row, db, vrf);
    }
  }

  lemma PeersAreRows(db: Db, rows: seq<AssocRow>, vrf: string, m: NtpaMap, s: Ntpd.State)
    requires AssocsShown(rows, db, vrf) && ProjectsAssocs(rows, m) && Represents(s, m)
    ensures forall a :: a in s.peers ==> a in db.assocs
  {
    forall a | a in s.peers
      ensures a in db.assocs
    {
      var k :| k in m && k.1 == a;
      var row :| row in rows && (row.vrf, row.address) == k;
    }
  }

  lemma MirrorServes(db: Db, snap: Snapshot, vrf: string, c: D.Cache, s: Ntpd.State)
    requires Replicates(snap, db, vrf) && ProjectsAssocs(snap.assocs, c.ntpaMap) && Represents(s, c.ntpaMap)
    ensures ServesTable(s, db)
  {
    RowsServed(db, snap.assocs, vrf, c.ntpaMap, s);
    PeersAreRows(db, snap.assocs, vrf, c.ntpaMap, s);
  }

  /** The keys that the tables ask the daemon to use. */
  function TrustedPasswords(db: Db): map<int, string> {
    map id | id in db.keys && db.auth && db.keys[id].trusted :: db.keys[id].password
  }

  lemma CachedKeys(db: Db, snap: Snapshot, vrf: string, cached: CommandText.KeyDb)
    requires Replicates(snap, db, vrf) && ProjectsKeys(snap.keys, AuthOf(snap.systems), cached)
    ensures CommandText.Passwords(cached) == TrustedPasswords(db)
  {
    FlagIsRead(snap.systems, db.auth);
    forall id | id in TrustedPasswords(db)
      ensures id in cached && cached[id].password == db.keys[id].password
    {
      var row :| row in snap.keys && row.keyId == id;
      assert Eligible(row, AuthOf(snap.systems));
    }
    forall id | id in cached
      ensures id in TrustedPasswords(db)
    {
      var row :| row in snap.keys && Eligible(row, AuthOf(snap.systems)) && row.keyId == id;
    }
  }

  /** A synchronised daemon mirrors the tables that its replica shows. */
  lemma SyncedMirrorsTables(env: Env, pw: string, db: Db, snap: Snapshot, vrf: string, c: D.Cache, s: Ntpd.State)
    requires Inv(env, db) && Typed(db) && Replicates(snap, db, vrf)
    requires D.Synced(pw, snap, c, s)
    ensures ServesTable(s, db) && TrustsTable(s, pw, db)
  {
    ReplicaTablesOk(env, db, snap, vrf);
    D.ProjectionIsOk(snap, c);
    MirrorServes(db, snap, vrf, c, s);
    CachedKeys(db, snap, vrf, c.ntpkDb);
    assert CommandText.Passwords(c.ntpkDb).Keys == c.ntpkDb.Keys;
  }

  // ---------- end to end ----------

  /**
   After any typed lines and one reconcile from a faithful state, the NTP daemon's associations
   are exactly the rows of the association table, and its keys are the trusted rows of the key
   table.  Every precondition on the tables is discharged by the command line's run invariant.
   */
  lemma LinesThenReconcile(policy: Ntpd.Policy, pw: string, env: Env, typed: seq<string>, snap: Snapshot, vrf: string,
                           before: D.Cache, s: Ntpd.State, after: D.Cache, t: Ntpd.State)
    requires IsToken(pw) && D.CacheOk(before) && D.Faithful(pw, before, s)
    requires Replicates(snap, RunLines(env, EMPTY, typed), vrf)
    requires D.Reconciles(policy, pw, before, s, snap, after, t)
    ensures ServesTable(t, RunLines(env, EMPTY, typed)) && TrustsTable(t, pw, RunLines(env, EMPTY, typed))
  {
    var db := RunLines(env, EMPTY, typed);
    RunLinesKeeps(env, EMPTY, typed);
    ReplicaTablesOk(env, db, snap, vrf);
    D.ReconcileSyncs(policy, pw, before, s, snap, after, t);
    SyncedMirrorsTables(env, pw, db, snap, vrf, after, t);
  }

  /**
   In every run of the daemon: whenever it stands at the head of its main loop and its replica
   shows tables that some typed lines lead to, the NTP daemon mirrors those tables.
   */
  lemma RunMirrorsTables(policy: Ntpd.Policy, pw: string, env: Env, typed: seq<string>, vrf: string, trace: seq<D.Run>, n: nat)
    requires IsToken(pw) && D.Behaviour(policy, pw, trace) && n < |trace| && trace[n].phase == D.MainHead
    requires trace[n].seen <= |trace[n].commits|
    requires Replicates(D.Replica(trace[n]), RunLines(env, EMPTY, typed), vrf)
    ensures ServesTable(trace[n].ntpd, RunLines(env, EMPTY, typed))
    ensures TrustsTable(trace[n].ntpd, pw, RunLines(env, EMPTY, typed))
  {
    D.WholeRunSimulation(policy, pw, trace, n);
    RunLinesKeeps(env, EMPTY, typed);
    SyncedMirrorsTables(env, pw, RunLines(env, EMPTY, typed), D.Replica(trace[n]), vrf, trace[n].cache, trace[n].ntpd);
  }

  // ---------- operator, database and daemon together ----------

  /**
   The lines typed so far, a run of the daemon, and for each commit how many of the lines its
   tables show.
   */
  datatype Joint = Joint(typed: seq<string>, upTo: seq<nat>, run: D.Run)

  /** One commit: the tables after `lines`, rows in any order, the other System columns as they please. */
  predicate Commits(env: Env, vrf: string, r: D.Run, r': D.Run, lines: seq<string>) {
    && |r'.commits| == |r.commits| + 1
    && r' == r.(commits := r.commits + [r'.commits[|r.commits|]])
    && Replicates(r'.commits[|r.commits|], RunLines(env, EMPTY, lines), vrf)
  }

  /** One more line is typed, or somebody else commits other columns; either way the tables are committed. */
  predicate TypeStep(env: Env, vrf: string, j: Joint, j': Joint) {
    && j.typed <= j'.typed && |j'.typed| <= |j.typed| + 1
    && j'.upTo == j.upTo + [|j'.typed|]
    && Commits(env, vrf, j.run, j'.run, j'.typed)
  }

  /** The daemon moves. */
  ghost predicate DaemonStep(policy: Ntpd.Policy, pw: string, j: Joint, j': Joint) {
    j'.typed == j.typed && j'.upTo == j.upTo && D.DaemonNext(policy, pw, j.run, j'.run)
  }

  ghost predicate JointStepAt(policy: Ntpd.Policy, pw: string, env: Env, vrf: string, trace: seq<Joint>, i: int) {
    0 < i < |trace| ==>
      TypeStep(env, vrf, trace[i - 1], trace[i]) || DaemonStep(policy, pw, trace[i - 1], trace[i])
  }

  /** A joint run: nothing is assumed of a commit except that typed lines made its tables. */
  ghost predicate JointRun(policy: Ntpd.Policy, pw: string, env: Env, vrf: string, trace: seq<Joint>) {
    && trace != [] && trace[0].typed == [] && trace[0].upTo == [] && D.Init(pw, trace[0].run)
    && forall i :: JointStepAt(policy, pw, env, vrf, trace, i)
  }

  /** Every commit shows the tables after some of the lines typed, and the last one after all of them. */
  predicate Recorded(env: Env, vrf: string, j: Joint) {
    && |j.upTo| == |j.run.commits|
    && (forall i :: 0 <= i < |j.upTo| ==>
          j.upTo[i] <= |j.typed| && Replicates(j.run.commits[i], RunLines(env, EMPTY, j.typed[..j.upTo[i]]), vrf))
    && (if j.upTo == [] then j.typed == [] else j.upTo[|j.upTo| - 1] == |j.typed|)
  }

  lemma TypeStepRecords(env: Env, vrf: string, j: Joint, j': Joint)
    requires Recorded(env, vrf, j) && TypeStep(env, vrf, j, j')
    ensures Recorded(env, vrf, j')
  {
    forall i | 0 <= i < |j'.upTo|
      ensures j'.upTo[i] <= |j'.typed|
      ensures Replicates(j'.run.commits[i], RunLines(env, EMPTY, j'.typed[..j'.upTo[i]]), vrf)
    {
      if i < |j.upTo| {
        assert j'.upTo[i] == j.upTo[i] && j'.run.commits[i] == j.run.commits[i];
        assert j'.typed[..j.upTo[i]] == j.typed[..j.upTo[i]];
      } else {
        assert j'.typed[..|j'.typed|] == j'.typed;
      }
    }
  }

  lemma DaemonStepRecords(policy: Ntpd.Policy, pw: string, env: Env, vrf: string, j: Joint, j': Joint)
    requires Recorded(env, vrf, j) && DaemonStep(policy, pw, j, j')
    ensures Recorded(env, vrf, j') && j'.run.seen <= |j'.run.commits|
  {
    D.DaemonKeepsCommits(policy, pw, j.run, j'.run);
  }

  /** A commit of what was typed is a commit of good tables. */
  lemma TypeStepIsCommit(env: Env, vrf: string, j: Joint, j': Joint)
    requires TypeStep(env, vrf, j, j')
    ensures D.CommitStep(j.run, j'.run)
  {
    RunLinesKeeps(env, EMPTY, j'.typed);
    ReplicaTablesOk(env, RunLines(env, EMPTY, j'.typed), j'.run.commits[|j.run.commits|], vrf);
  }

  function Runs(trace: seq<Joint>): (runs: seq<D.Run>)
    ensures |runs| == |trace| && forall i :: 0 <= i < |trace| ==> runs[i] == trace[i].run
  {
    seq(|trace|, i requires 0 <= i < |trace| => trace[i].run)
  }

  lemma {:induction false} JointRecorded(policy: Ntpd.Policy, pw: string, env: Env, vrf: string, trace: seq<Joint>, n: nat)
    requires JointRun(policy, pw, env, vrf, trace) && n < |trace|
    ensures Recorded(env, vrf, trace[n]) && trace[n].run.seen <= |trace[n].run.commits|
  {
    if n > 0 {
      JointRecorded(policy, pw, env, vrf, trace, n - 1);
      assert JointStepAt(policy, pw, env, vrf, trace, n);
      if TypeStep(env, vrf, trace[n - 1], trace[n]) {
        TypeStepRecords(env, vrf, trace[n - 1], trace[n]);
      } else {
        DaemonStepRecords(policy, pw, env, vrf, trace[n - 1], trace[n]);
      }
    }
  }

  /** The daemon's part of a joint run is a run of the daemon: the command line discharges what it assumes. */
  lemma JointIsBehaviour(policy: Ntpd.Policy, pw: string, env: Env, vrf: string, trace: seq<Joint>)
    requires JointRun(policy, pw, env, vrf, trace)
    ensures D.Behaviour(policy, pw, Runs(trace))
  {
    forall i ensures D.StepAt(policy, pw, Runs(trace), i) {
      if 0 < i < |trace| {
        JointRecorded(policy, pw, env, vrf, trace, i - 1);
        assert JointStepAt(policy, pw, env, vrf, trace, i);
        if TypeStep(env, vrf, trace[i - 1], trace[i]) {
          TypeStepIsCommit(env, vrf, trace[i - 1], trace[i]);
        }
      }
    }
  }

  /** How many typed lines the replica shows. */
  function LinesSeen(j: Joint): nat
    requires |j.upTo| == |j.run.commits| && j.run.seen <= |j.run.commits|
  {
    if j.run.seen == 0 then 0 else j.upTo[j.run.seen - 1]
  }

  lemma ReplicaOfLines(env: Env, vrf: string, j: Joint)
    requires Recorded(env, vrf, j) && j.run.seen <= |j.run.commits|
    ensures LinesSeen(j) <= |j.typed|
    ensures Replicates(D.Replica(j.run), RunLines(env, EMPTY, j.typed[..LinesSeen(j)]), vrf)
  {
    if j.run.seen == 0 {
      assert j.typed[..0] == [];
    }
  }

  /**
   The whole system.  In every joint run of operator, database and daemon, whenever the daemon
   stands at the head of its main loop, the NTP daemon serves and trusts exactly what the lines
   that its replica shows ask for; those are all the lines typed once every commit has arrived.
   */
  lemma JointMirrors(policy: Ntpd.Policy, pw: string, env: Env, vrf: string, trace: seq<Joint>, n: nat)
    requires IsToken(pw) && JointRun(policy, pw, env, vrf, trace) && n < |trace| && trace[n].run.phase == D.MainHead
    ensures Recorded(env, vrf, trace[n]) && trace[n].run.seen <= |trace[n].run.commits|
    ensures var j := trace[n];
      && LinesSeen(j) <= |j.typed|
      && ServesTable(j.run.ntpd, RunLines(env, EMPTY, j.typed[..LinesSeen(j)]))
      && TrustsTable(j.run.ntpd, pw, RunLines(env, EMPTY, j.typed[..LinesSeen(j)]))
      && (j.run.seen == |j.run.commits| ==> j.typed[..LinesSeen(j)] == j.typed)
  {
    var j := trace[n];
    JointIsBehaviour(policy, pw, env, vrf, trace);
    JointRecorded(policy, pw, env, vrf, trace, n);
    ReplicaOfLines(env, vrf, j);
    RunMirrorsTables(policy, pw, env, j.typed[..LinesSeen(j)], vrf, Runs(trace), n);
  }

  /** A run of the daemon alone, seen from the whole system: nobody types. */
  function Idle(j: Joint, path: seq<D.Run>): (more: seq<Joint>)
    ensures |more| == |path| && forall i :: 0 <= i < |more| ==> more[i] == Joint(j.typed, j.upTo, path[i])
  {
    seq(|path|, i requires 0 <= i < |path| => Joint(j.typed, j.upTo, path[i]))
  }

  lemma IdleExtends(policy: Ntpd.Policy, pw: string, env: Env, vrf: string, trace: seq<Joint>, path: seq<D.Run>)
    requires JointRun(policy, pw, env, vrf, trace)
    requires path != [] && path[0] == trace[|trace| - 1].run && forall i :: D.PathStepAt(policy, pw, path, i)
    ensures JointRun(policy, pw, env, vrf, trace + Idle(trace[|trace| - 1], path)[1..])
  {
    var last := trace[|trace| - 1];
    var more := Idle(last, path)[1..];
    var whole := trace + more;
    assert whole[0] == trace[0];
    forall i ensures JointStepAt(policy, pw, env, vrf, whole, i) {
      if 0 < i < |trace| {
        assert JointStepAt(policy, pw, env, vrf, trace, i);
      } else if |trace| <= i < |whole| {
        var k := i - |trace| + 1;
        assert D.PathStepAt(policy, pw, path, k);
        assert whole[i] == Joint(last.typed, last.upTo, path[k]);
        assert whole[i - 1] == Joint(last.typed, last.upTo, path[k - 1]);
        assert DaemonStep(policy, pw, whole[i - 1], whole[i]);
      }
    }
  }

  lemma JointInvariant(policy: Ntpd.Policy, pw: string, env: Env, vrf: string, trace: seq<Joint>, n: nat)
    requires IsToken(pw) && JointRun(policy, pw, env, vrf, trace) && n < |trace|
    ensures D.Inv(pw, trace[n].run) && trace[n].run.seen <= |trace[n].run.commits|
  {
    JointIsBehaviour(policy, pw, env, vrf, trace);
    JointRecorded(policy, pw, env, vrf, trace, n);
    D.BehaviourInvariant(policy, pw, Runs(trace), n);
  }

  /** Once every commit has arrived, all the lines typed are served. */
  lemma JointMirrorsAll(policy: Ntpd.Policy, pw: string, env: Env, vrf: string, trace: seq<Joint>, n: nat)
    requires IsToken(pw) && JointRun(policy, pw, env, vrf, trace) && n < |trace|
    requires trace[n].run.phase == D.MainHead && trace[n].run.seen == |trace[n].run.commits|
    ensures ServesTable(trace[n].run.ntpd, RunLines(env, EMPTY, trace[n].typed))
    ensures TrustsTable(trace[n].run.ntpd, pw, RunLines(env, EMPTY, trace[n].typed))
  {
    JointMirrors(policy, pw, env, vrf, trace, n);
  }

  /**
   Progress of the whole system.  Every joint run whose replica or database says "configured" can be continued by
   steps of the daemon alone until the NTP daemon serves and trusts exactly what all the typed lines ask for.
   */
  lemma JointProgress(policy: Ntpd.Policy, pw: string, env: Env, vrf: string, trace: seq<Joint>) returns (more: seq<Joint>)
    requires IsToken(pw) && JointRun(policy, pw, env, vrf, trace)
    requires var run := trace[|trace| - 1].run; run.seen <= |run.commits| ==> D.Serviceable(run)
    ensures JointRun(policy, pw, env, vrf, trace + more)
    ensures forall j :: j in more ==> j.typed == trace[|trace| - 1].typed
    ensures var j := (trace + more)[|trace + more| - 1];
      && j.run.phase == D.MainHead && j.typed == trace[|trace| - 1].typed
      && ServesTable(j.run.ntpd, RunLines(env, EMPTY, j.typed))
      && TrustsTable(j.run.ntpd, pw, RunLines(env, EMPTY, j.typed))
  {
    var n := |trace| - 1;
    JointInvariant(policy, pw, env, vrf, trace, n);
    var path := D.ReachesMainHead(policy, pw, trace[n].run);
    more := Idle(trace[n], path)[1..];
    IdleExtends(policy, pw, env, vrf, trace, path);
    var whole := trace + more;
    assert whole[|whole| - 1] == Joint(trace[n].typed, trace[n].upTo, path[|path| - 1]);
    JointMirrorsAll(policy, pw, env, vrf, whole, |whole| - 1);
  }
}
