/**
 The configuration daemon as a state machine over whole runs: database commits, replica
 updates (`idl.run`), provisioning, the hand-over to the main loop, status polls and
 reconciles, in every interleaving.
 */
module Daemon {
  import opened Text
  import opened Enumerations
  import opened Ntpd
  import opened CommandText
  import opened Plans
  import opened Convergence
  import opened KeyAgreement
  import opened Projection
  import opened Unfolding

  /** What the daemon remembers between reconciles. */
  datatype Cache = Cache(ntpaMap: NtpaMap, ntpkDb: KeyDb, authState: string)

  const EMPTY_CACHE := Cache(map[], map[], "false")

  // ---------- one reconcile ----------

  /** `cs` are the commands of one reconcile, server commands first, then trust commands. */
  ghost predicate CommandPlan(before: Cache, after: Cache, cs: seq<Command>) {
    exists servers, trusts ::
      ServerPlan(before.ntpaMap, after.ntpaMap, before.authState != after.authState, servers) &&
      KeyPlan(before.ntpkDb, after.ntpkDb, trusts) && cs == servers + trusts
  }

  /** `after` is the projection of the snapshot that the row loops compute. */
  predicate Projects(snap: Snapshot, after: Cache) {
    && after.authState == AuthOf(snap.systems)
    && (var keys := ScanKeys(snap.keys, after.authState); keys.KeyScan? && keys.db == after.ntpkDb)
    && (var assocs := ScanAssocs(snap.assocs); assocs.AssocScan? && assocs.m == after.ntpaMap)
  }

  /** No row loop reads a variable before it is set; unfolded on demand. */
  ghost predicate Projectable(snap: Snapshot) {
    forall k {:trigger Unfolded(PlanLayer, k)} :: Unfolded(PlanLayer, k) ==>
      ScanKeys(snap.keys, AuthOf(snap.systems)).KeyScan? && ScanAssocs(snap.assocs).AssocScan?
  }

  lemma ProjectableMeans(snap: Snapshot)
    ensures Projectable(snap) <==>
      ScanKeys(snap.keys, AuthOf(snap.systems)).KeyScan? && ScanAssocs(snap.assocs).AssocScan?
  {
    assert Unfolded(PlanLayer, 0);
  }

  /** One run of `ops_ntpd_check_updates_from_ovsdb` on a snapshot; unfolded on demand. */
  ghost predicate Reconciles(policy: Policy, pw: string, before: Cache, s: State, snap: Snapshot, after: Cache, t: State) {
    forall k {:trigger Unfolded(PlanLayer, k)} :: Unfolded(PlanLayer, k) ==> ReconcilesBy(policy, pw, before, s, snap, after, t)
  }

  ghost predicate ReconcilesBy(policy: Policy, pw: string, before: Cache, s: State, snap: Snapshot, after: Cache, t: State) {
    && Projects(snap, after)
    && exists cs, keysFile ::
         CommandPlan(before, after, cs) && KeysFileOf(pw, after.ntpkDb, keysFile) &&
         Delivered(policy, s, keysFile, RenderAll(cs), t)
  }

  /** Plans, a keys file and their delivery make a reconcile. */
  lemma {:induction false} ReconcileOfParts(policy: Policy, pw: string, before: Cache, s: State, snap: Snapshot, after: Cache, t: State,
                                            servers: seq<Command>, trusts: seq<Command>, keysFile: string)
    requires Projects(snap, after)
    requires ServerPlan(before.ntpaMap, after.ntpaMap, before.authState != after.authState, servers)
    requires KeyPlan(before.ntpkDb, after.ntpkDb, trusts) && KeysFileOf(pw, after.ntpkDb, keysFile)
    requires Delivered(policy, s, keysFile, RenderAll(servers) + RenderAll(trusts), t)
    ensures Reconciles(policy, pw, before, s, snap, after, t)
  {
    RenderAllAppend(servers, trusts);
    assert CommandPlan(before, after, servers + trusts);
  }

  // ---------- what makes a snapshot and a cache good ----------

  /** What the command line guarantees about the tables (see the module EndToEnd). */
  predicate TablesOk(snap: Snapshot) {
    && UniqueKeyIds(snap.keys)
    && (forall row :: row in snap.keys ==> 1 <= row.keyId < CONTROL_KEY && IsToken(row.password))
    && (forall row :: row in snap.assocs ==>
          IsToken(row.address) && IsToken(Attribute(row.attributes, Version, DEFAULT_VERSION)))
    && (forall i, j :: 0 <= i < j < |snap.assocs| ==> snap.assocs[i].address != snap.assocs[j].address)
  }

  predicate CacheOk(c: Cache) {
    && WellKeyed(c.ntpaMap) && AddressInjective(c.ntpaMap)
    && (forall k :: k in c.ntpaMap ==> IsToken(k.1) && IsToken(c.ntpaMap[k].version))
    && (forall id :: id in c.ntpkDb ==> 1 <= id < CONTROL_KEY && IsToken(c.ntpkDb[id].password))
  }

  lemma {:induction false} ProjectionIsOk(snap: Snapshot, after: Cache)
    requires TablesOk(snap) && Projects(snap, after)
    ensures CacheOk(after)
    ensures ProjectsKeys(snap.keys, after.authState, after.ntpkDb) && ProjectsAssocs(snap.assocs, after.ntpaMap)
  {
    CompleteKeysProject(snap.keys, after.authState);
    assert UniquePairs(snap.assocs);
    CompleteAssocsProject(snap.assocs);
    ScannedAssocsAreSet(snap.assocs);
    forall j, k | j in after.ntpaMap && k in after.ntpaMap && j.1 == k.1
      ensures j == k
    {
      var x :| x in snap.assocs && (x.vrf, x.address) == j;
      var y :| y in snap.assocs && (y.vrf, y.address) == k;
      OneRowPerAddress(snap, x, y);
    }
  }

  lemma OneRowPerAddress(snap: Snapshot, x: AssocRow, y: AssocRow)
    requires TablesOk(snap) && x in snap.assocs && y in snap.assocs && x.address == y.address
    ensures x == y
  {
    var i :| 0 <= i < |snap.assocs| && snap.assocs[i] == x;
    var j :| 0 <= j < |snap.assocs| && snap.assocs[j] == y;
    assert i == j;
  }

  /** Good tables always project: no loop variable is read before it is set. */
  lemma {:induction false} GoodTablesProject(snap: Snapshot)
    requires TablesOk(snap)
    ensures Projectable(snap)
  {
    CompleteKeysProject(snap.keys, AuthOf(snap.systems));
    assert UniquePairs(snap.assocs);
    CompleteAssocsProject(snap.assocs);
  }

  /** The NTP daemon runs the cache: associations, loaded keys and trusted keys. */
  predicate Faithful(pw: string, c: Cache, s: State) {
    Represents(s, c.ntpaMap) && KeysAgree(s, pw, c.ntpkDb)
  }

  /** Cache and NTP daemon equal the projection of the snapshot. */
  predicate Synced(pw: string, snap: Snapshot, c: Cache, s: State) {
    Projects(snap, c) && Faithful(pw, c, s)
  }

  /** What was delivered in a reconcile. */
  lemma ReconcileParts(policy: Policy, pw: string, before: Cache, s: State, snap: Snapshot, after: Cache, t: State)
    returns (cs: seq<Command>, keysFile: string)
    requires Reconciles(policy, pw, before, s, snap, after, t)
    ensures Projects(snap, after)
    ensures CommandPlan(before, after, cs) && KeysFileOf(pw, after.ntpkDb, keysFile)
    ensures Delivered(policy, s, keysFile, RenderAll(cs), t)
  {
    assert ReconcilesBy(policy, pw, before, s, snap, after, t) by {
      assert Unfolded(PlanLayer, 0);
    }
    cs, keysFile :|
      CommandPlan(before, after, cs) && KeysFileOf(pw, after.ntpkDb, keysFile) &&
      Delivered(policy, s, keysFile, RenderAll(cs), t);
  }

  lemma DeliveredMeans(policy: Policy, s: State, keysFile: string, lines: seq<string>, t: State)
    requires Delivered(policy, s, keysFile, lines, t)
    ensures t == ExecText(policy, s.(loaded := ReadKeys(keysFile)), lines)
  {
    assert Unfolded(PlanLayer, 0);
  }

  /** A reconcile from a faithful state on good tables synchronises with those tables. */
  lemma ReconcileSyncs(policy: Policy, pw: string, before: Cache, s: State, snap: Snapshot, after: Cache, t: State)
    requires IsToken(pw) && CacheOk(before) && Faithful(pw, before, s) && TablesOk(snap)
    requires Reconciles(policy, pw, before, s, snap, after, t)
    ensures CacheOk(after) && Synced(pw, snap, after, t)
  {
    var cs, keysFile := ReconcileParts(policy, pw, before, s, snap, after, t);
    ProjectionIsOk(snap, after);
    DeliveredMeans(policy, s, keysFile, RenderAll(cs), t);
    var servers, trusts := TextIsCommands(policy, before, after, s.(loaded := ReadKeys(keysFile)), cs);
    DeliveryConverges(policy, s, pw, before.ntpaMap, after.ntpaMap, before.authState != after.authState, servers,
                      before.ntpkDb, after.ntpkDb, trusts, keysFile);
  }

  /** A delivery from `s` to `t` whose every command is safe where it arrives; unfolded on demand. */
  ghost predicate SafeDelivery(policy: Policy, pw: string, before: Cache, s: State, after: Cache, t: State,
                               cs: seq<Command>, keysFile: string) {
    forall k {:trigger Unfolded(RunLayer, k)} :: Unfolded(RunLayer, k) ==>
      && CommandPlan(before, after, cs) && KeysFileOf(pw, after.ntpkDb, keysFile)
      && Delivered(policy, s, keysFile, RenderAll(cs), t)
      && SafeAlong(policy, s.(loaded := ReadKeys(keysFile)), cs)
  }

  /**
   Inside a reconcile: whenever a `trustedkey` arrives its keys are loaded, no `server` command
   conflicts, and the control key is never untrusted, in every intermediate state.
   */
  lemma ReconcileIsSafe(policy: Policy, pw: string, before: Cache, s: State, snap: Snapshot, after: Cache, t: State)
    returns (cs: seq<Command>, keysFile: string)
    requires IsToken(pw) && CacheOk(before) && Faithful(pw, before, s) && TablesOk(snap)
    requires Reconciles(policy, pw, before, s, snap, after, t)
    ensures SafeDelivery(policy, pw, before, s, after, t, cs, keysFile)
  {
    cs, keysFile := ReconcileParts(policy, pw, before, s, snap, after, t);
    ProjectionIsOk(snap, after);
    var servers, trusts :|
      ServerPlan(before.ntpaMap, after.ntpaMap, before.authState != after.authState, servers) &&
      KeyPlan(before.ntpkDb, after.ntpkDb, trusts) && cs == servers + trusts;
    DeliveryIsSafe(policy, s, pw, before.ntpaMap, after.ntpaMap, before.authState != after.authState, servers,
                   before.ntpkDb, after.ntpkDb, trusts, keysFile);
  }

  /** The text of a command plan does what its commands mean. */
  lemma {:induction false} TextIsCommands(policy: Policy, before: Cache, after: Cache, s: State, cs: seq<Command>)
    returns (servers: seq<Command>, trusts: seq<Command>)
    requires CacheOk(before) && CacheOk(after) && CommandPlan(before, after, cs)
    ensures ServerPlan(before.ntpaMap, after.ntpaMap, before.authState != after.authState, servers)
    ensures KeyPlan(before.ntpkDb, after.ntpkDb, trusts)
    ensures ExecText(policy, s, RenderAll(cs)) == Exec(policy, s, servers + trusts)
  {
    servers, trusts :|
      ServerPlan(before.ntpaMap, after.ntpaMap, before.authState != after.authState, servers) &&
      KeyPlan(before.ntpkDb, after.ntpkDb, trusts) && cs == servers + trusts;
    ServersSendable(before.ntpaMap, after.ntpaMap, before.authState != after.authState, servers);
    TrustsSendable(before.ntpkDb, after.ntpkDb, trusts);
    ExecTextIsExec(policy, s, cs);
  }

  predicate AllSendable(cs: seq<Command>) {
    forall i :: 0 <= i < |cs| ==> Sendable(cs[i])
  }

  predicate TokenKeys(ks: seq<NtpaKey>) {
    forall k :: k in ks ==> IsToken(k.1)
  }

  lemma {:induction false} BlocksSendable(ks: seq<NtpaKey>, m: NtpaMap)
    requires WellKeyed(m) && forall k :: k in ks ==> k in m && IsToken(k.1) && IsToken(m[k].version)
    ensures AllSendable(ReviseCommands(ks, m)) && AllSendable(AddCommands(ks, m))
  {
    if ks != [] {
      BlocksSendable(ks[1..], m);
    }
  }

  lemma {:induction false} DeletesSendable(ks: seq<NtpaKey>)
    requires TokenKeys(ks)
    ensures AllSendable(DeleteCommands(ks))
  {
    if ks != [] {
      DeletesSendable(ks[1..]);
    }
  }

  lemma ServersSendable(before: NtpaMap, after: NtpaMap, trigger: bool, cs: seq<Command>)
    requires ServerPlan(before, after, trigger, cs) && WellKeyed(after)
    requires forall k :: k in before ==> IsToken(k.1)
    requires forall k :: k in after ==> IsToken(k.1) && IsToken(after[k].version)
    ensures AllSendable(cs)
  {
    var rev, del, add := WalksOfPlan(before, after, trigger, cs);
    BlocksSendable(rev, after);
    DeletesSendable(del);
    BlocksSendable(add, after);
  }

  lemma TrustsSendable(before: KeyDb, after: KeyDb, cs: seq<Command>)
    requires KeyPlan(before, after, cs)
    ensures AllSendable(cs)
  {
    assert Unfolded(PlanLayer, 0);
  }

  // ---------- whole runs ----------

  /** Where the daemon stands in its two loops. */
  datatype Phase = ProvisionHead | ProvisionCheck | HandOver | MainHead | MainCheck

  datatype Run = Run(
    commits: seq<Snapshot>,  // everything committed to the database so far
    seen: nat,               // how many commits the replica has received
    changeSeqno: nat,        // idl.change_seqno
    seqno: nat,
    phase: Phase,
    ntpdStarted: bool,
    cache: Cache,
    ntpd: State,
    polls: nat)

  const EMPTY_SNAPSHOT := Snapshot([], [], [])

  /** The replica's content. */
  function Replica(r: Run): Snapshot
    requires r.seen <= |r.commits|
  {
    if r.seen == 0 then EMPTY_SNAPSHOT else r.commits[r.seen - 1]
  }

  predicate Init(pw: string, r: Run) {
    r == Run([], 0, 0, 0, ProvisionHead, false, EMPTY_CACHE, Started(pw), 0)
  }

  /** Anyone commits new table contents, at any moment. */
  predicate CommitStep(r: Run, r': Run) {
    |r'.commits| == |r.commits| + 1 && TablesOk(r'.commits[|r.commits|]) &&
    r' == r.(commits := r.commits + [r'.commits[|r.commits|]])
  }

  /** `idl.run` at a loop head: some commits arrive; `change_seqno` moves if any does. */
  predicate IdlRunStep(r: Run, r': Run) {
    && (r.phase == ProvisionHead || r.phase == MainHead)
    && r.seen <= r'.seen <= |r.commits|
    && r.changeSeqno <= r'.changeSeqno
    && (r.seen < r'.seen ==> r.changeSeqno < r'.changeSeqno)
    && r' == r.(seen := r'.seen, changeSeqno := r'.changeSeqno,
                phase := if r.phase == ProvisionHead then ProvisionCheck else MainCheck)
  }

  /** The rest of one provisioning iteration. */
  ghost predicate ProvisionStep(policy: Policy, pw: string, r: Run, r': Run)
    requires r.seen <= |r.commits|
  {
    && r.phase == ProvisionCheck
    && if r.seqno == r.changeSeqno then r' == r.(phase := ProvisionHead)
       else if !Configured(Replica(r).systems) then r' == r.(seqno := r.changeSeqno, phase := ProvisionHead)
       else
         && Reconciles(policy, pw, r.cache, Started(pw), Replica(r), r'.cache, r'.ntpd)
         && r' == r.(seqno := r.changeSeqno, phase := HandOver, ntpdStarted := true, cache := r'.cache, ntpd := r'.ntpd)
  }

  /** Between the two loops `seqno` is set once more. */
  predicate HandOverStep(r: Run, r': Run) {
    r.phase == HandOver && r' == r.(seqno := r.changeSeqno, phase := MainHead)
  }

  /** The rest of one main-loop iteration: a status poll, or a reconcile. */
  ghost predicate MainStep(policy: Policy, pw: string, r: Run, r': Run)
    requires r.seen <= |r.commits|
  {
    && r.phase == MainCheck
    && if r.seqno == r.changeSeqno then r' == r.(phase := MainHead, polls := r.polls + 1)
       else
         && Reconciles(policy, pw, r.cache, r.ntpd, Replica(r), r'.cache, r'.ntpd)
         && r' == r.(seqno := r.changeSeqno, phase := MainHead, cache := r'.cache, ntpd := r'.ntpd)
  }

  /** A step of the daemon itself. */
  ghost predicate DaemonNext(policy: Policy, pw: string, r: Run, r': Run) {
    && r.seen <= |r.commits|
    && (IdlRunStep(r, r') || ProvisionStep(policy, pw, r, r') || HandOverStep(r, r') || MainStep(policy, pw, r, r'))
  }

  ghost predicate Next(policy: Policy, pw: string, r: Run, r': Run) {
    r.seen <= |r.commits| && (CommitStep(r, r') || DaemonNext(policy, pw, r, r'))
  }

  lemma IdlRunKeepsCommits(r: Run, r': Run)
    requires IdlRunStep(r, r')
    ensures r'.commits == r.commits && r'.seen <= |r.commits|
  {
  }

  lemma ProvisionKeepsCommits(policy: Policy, pw: string, r: Run, r': Run)
    requires r.seen <= |r.commits| && ProvisionStep(policy, pw, r, r')
    ensures r'.commits == r.commits && r'.seen == r.seen
  {
  }

  lemma MainKeepsCommits(policy: Policy, pw: string, r: Run, r': Run)
    requires r.seen <= |r.commits| && MainStep(policy, pw, r, r')
    ensures r'.commits == r.commits && r'.seen == r.seen
  {
  }

  /** The daemon commits nothing. */
  lemma DaemonKeepsCommits(policy: Policy, pw: string, r: Run, r': Run)
    requires DaemonNext(policy, pw, r, r')
    ensures r'.commits == r.commits && r'.seen <= |r.commits|
  {
    if IdlRunStep(r, r') {
      IdlRunKeepsCommits(r, r');
    } else if ProvisionStep(policy, pw, r, r') {
      ProvisionKeepsCommits(policy, pw, r, r');
    } else if MainStep(policy, pw, r, r') {
      MainKeepsCommits(policy, pw, r, r');
    }
  }

  /** What holds in every reachable state; unfolded on demand. */
  ghost predicate Inv(pw: string, r: Run) {
    forall k {:trigger Unfolded(PlanLayer, k)} :: Unfolded(PlanLayer, k) ==> Good(pw, r)
  }

  predicate Good(pw: string, r: Run) {
    && r.seen <= |r.commits| && (forall i :: 0 <= i < |r.commits| ==> TablesOk(r.commits[i]))
    && r.ntpdStarted == (r.phase == HandOver || r.phase == MainHead || r.phase == MainCheck)
    && r.seqno <= r.changeSeqno
    && (r.phase != ProvisionCheck && r.phase != MainCheck ==> r.seqno == r.changeSeqno)
    && CacheOk(r.cache) && Faithful(pw, r.cache, r.ntpd)
    && (!r.ntpdStarted ==> r.cache == EMPTY_CACHE && r.ntpd == Started(pw))
    && (!r.ntpdStarted && r.seqno == r.changeSeqno ==> !Configured(Replica(r).systems))
    && (r.ntpdStarted && r.seqno == r.changeSeqno ==> Synced(pw, Replica(r), r.cache, r.ntpd))
  }

  lemma InitEstablishes(pw: string, r: Run)
    requires Init(pw, r)
    ensures Inv(pw, r)
  {
  }

  lemma ReplicaIsOk(pw: string, r: Run)
    requires Inv(pw, r)
    ensures r.seen <= |r.commits| && TablesOk(Replica(r))
  {
    assert Unfolded(PlanLayer, 0);
  }

  lemma NextPreserves(policy: Policy, pw: string, r: Run, r': Run)
    requires IsToken(pw) && Inv(pw, r) && Next(policy, pw, r, r')
    ensures Inv(pw, r')
  {
    assert Unfolded(PlanLayer, 0);
    ReplicaIsOk(pw, r);
    if CommitStep(r, r') {
      assert Replica(r') == Replica(r);
    } else if IdlRunStep(r, r') {
    } else if ProvisionStep(policy, pw, r, r') {
      if r'.phase == HandOver {
        ReconcileSyncs(policy, pw, r.cache, Started(pw), Replica(r), r'.cache, r'.ntpd);
      }
      assert Replica(r') == Replica(r);
    } else if HandOverStep(r, r') {
      assert Replica(r') == Replica(r);
    } else {
      if r.seqno != r.changeSeqno {
        ReconcileSyncs(policy, pw, r.cache, r.ntpd, Replica(r), r'.cache, r'.ntpd);
      }
      assert Replica(r') == Replica(r);
    }
  }

  ghost predicate StepAt(policy: Policy, pw: string, trace: seq<Run>, i: int) {
    0 < i < |trace| ==> Next(policy, pw, trace[i - 1], trace[i])
  }

  /** A run from the start, state by state. */
  ghost predicate Behaviour(policy: Policy, pw: string, trace: seq<Run>) {
    && trace != [] && Init(pw, trace[0])
    && forall i :: StepAt(policy, pw, trace, i)
  }

  lemma {:induction false} BehaviourInvariant(policy: Policy, pw: string, trace: seq<Run>, n: nat)
    requires IsToken(pw) && Behaviour(policy, pw, trace) && n < |trace|
    ensures Inv(pw, trace[n])
  {
    if n == 0 {
      InitEstablishes(pw, trace[0]);
    } else {
      BehaviourInvariant(policy, pw, trace, n - 1);
      assert StepAt(policy, pw, trace, n);
      NextPreserves(policy, pw, trace[n - 1], trace[n]);
    }
  }

  /**
   Whole-run simulation.  In every state of every run: when the NTP daemon is started and
   `seqno` equals `change_seqno`, the cached maps and the NTP daemon equal the projection of
   the replica.  That is always so at the head of the main loop and at the hand-over to it;
   and while the NTP daemon is not started, a replica that says "configured" is never left
   waiting at the head of the provisioning loop.
   */
  lemma WholeRunSimulation(policy: Policy, pw: string, trace: seq<Run>, n: nat)
    requires IsToken(pw) && Behaviour(policy, pw, trace) && n < |trace|
    ensures var r := trace[n];
      && r.seen <= |r.commits|
      && (r.ntpdStarted && r.seqno == r.changeSeqno ==> Synced(pw, Replica(r), r.cache, r.ntpd))
      && (r.phase == MainHead || r.phase == HandOver ==> r.ntpdStarted && Synced(pw, Replica(r), r.cache, r.ntpd))
      && (r.phase == ProvisionHead ==> !Configured(Replica(r).systems))
  {
    BehaviourInvariant(policy, pw, trace, n);
    assert Unfolded(PlanLayer, 0);
  }

  /** A snapshot that said "configured" has been seen. */
  predicate SeenConfigured(r: Run) {
    exists i :: 0 <= i < r.seen && i < |r.commits| && Configured(r.commits[i].systems)
  }

  lemma NextStartsConfigured(policy: Policy, pw: string, r: Run, r': Run)
    requires Next(policy, pw, r, r') && (r.ntpdStarted ==> SeenConfigured(r))
    ensures r'.ntpdStarted ==> SeenConfigured(r')
  {
    if SeenConfigured(r) {
      var i :| 0 <= i < r.seen && i < |r.commits| && Configured(r.commits[i].systems);
      assert i < r'.seen && r'.commits[i] == r.commits[i];
    } else if r'.ntpdStarted {
      assert r.seen > 0 && Configured(r'.commits[r.seen - 1].systems);
    }
  }

  /** The NTP daemon runs only once a snapshot that the replica received said "configured". */
  lemma {:induction false} StartsOnlyConfigured(policy: Policy, pw: string, trace: seq<Run>, n: nat)
    requires Behaviour(policy, pw, trace) && n < |trace|
    ensures trace[n].ntpdStarted ==> SeenConfigured(trace[n])
  {
    if n > 0 {
      StartsOnlyConfigured(policy, pw, trace, n - 1);
      assert StepAt(policy, pw, trace, n);
      NextStartsConfigured(policy, pw, trace[n - 1], trace[n]);
    }
  }

  /** While `seqno` equals `change_seqno` no step starts the NTP daemon, sends it anything or touches the caches. */
  lemma NoNewsNoCommands(policy: Policy, pw: string, trace: seq<Run>, n: nat)
    requires Behaviour(policy, pw, trace) && 0 < n < |trace| && trace[n - 1].seqno == trace[n - 1].changeSeqno
    ensures trace[n].ntpd == trace[n - 1].ntpd && trace[n].cache == trace[n - 1].cache
    ensures trace[n].ntpdStarted == trace[n - 1].ntpdStarted
  {
    assert StepAt(policy, pw, trace, n);
  }

  // ---------- progress ----------

  lemma PlansExist(before: Cache, after: Cache) returns (servers: seq<Command>, trusts: seq<Command>)
    ensures ServerPlan(before.ntpaMap, after.ntpaMap, before.authState != after.authState, servers)
    ensures KeyPlan(before.ntpkDb, after.ntpkDb, trusts)
  {
    var rev := EnumerationExists(if before.authState != after.authState then Keyed(after.ntpaMap) else {});
    var del := EnumerationExists(Deleted(before.ntpaMap, after.ntpaMap));
    var add := EnumerationExists(Added(before.ntpaMap, after.ntpaMap));
    PlanOfWalks(before.ntpaMap, after.ntpaMap, before.authState != after.authState, rev, del, add);
    servers := PlanOf(rev, del, add, after.ntpaMap);
    var untrusted := EnumerationExists(before.ntpkDb.Keys - after.ntpkDb.Keys);
    var trusted := EnumerationExists(after.ntpkDb.Keys);
    trusts := TrustCommands(untrusted, trusted);
  }

  lemma KeysFileExists(pw: string, db: KeyDb) returns (keysFile: string)
    ensures KeysFileOf(pw, db, keysFile)
  {
    var ids := EnumerationExists(db.Keys);
    keysFile := KeysFile(pw, ids, db);
  }

  /** Tables whose rows project can always be reconciled. */
  lemma ReconcileExists(policy: Policy, pw: string, before: Cache, s: State, snap: Snapshot) returns (after: Cache, t: State)
    requires Projectable(snap)
    ensures Reconciles(policy, pw, before, s, snap, after, t)
  {
    ProjectableMeans(snap);
    after := Cache(ScanAssocs(snap.assocs).m, ScanKeys(snap.keys, AuthOf(snap.systems)).db, AuthOf(snap.systems));
    var servers, trusts := PlansExist(before, after);
    var keysFile := KeysFileExists(pw, after.ntpkDb);
    t := DeliverText(policy, s, keysFile, RenderAll(servers) + RenderAll(trusts));
    ReconcileOfParts(policy, pw, before, s, snap, after, t, servers, trusts, keysFile);
  }

  /** Steps the daemon still has to take until it has seen everything and serves; at most four. */
  function StepsLeft(r: Run): nat
    requires r.seen <= |r.commits|
  {
    var all := r.seen == |r.commits|;
    match r.phase
    case MainHead => if all then 0 else 2
    case MainCheck => if all then 1 else 3
    case HandOver => if all then 1 else 3
    case ProvisionHead => 3
    case ProvisionCheck => if all && r.seqno != r.changeSeqno then 2 else 4
  }

  /** The replica or the database says "configured", or the NTP daemon runs already. */
  predicate Serviceable(r: Run)
    requires r.seen <= |r.commits|
  {
    || r.ntpdStarted || Configured(Replica(r).systems)
    || (r.commits != [] && Configured(r.commits[|r.commits| - 1].systems))
  }

  lemma HeadSteps(policy: Policy, pw: string, r: Run) returns (r': Run)
    requires Good(pw, r) && (r.phase == ProvisionHead || r.phase == MainHead)
    ensures DaemonNext(policy, pw, r, r') && r'.commits == r.commits && r'.ntpdStarted == r.ntpdStarted
    ensures r'.seen == |r.commits| && r'.seqno != r'.changeSeqno
    ensures r'.phase == if r.phase == ProvisionHead then ProvisionCheck else MainCheck
  {
    r' := r.(seen := |r.commits|, changeSeqno := r.changeSeqno + 1,
             phase := if r.phase == ProvisionHead then ProvisionCheck else MainCheck);
    assert IdlRunStep(r, r');
  }

  lemma ProvisionSteps(policy: Policy, pw: string, r: Run) returns (r': Run)
    requires r.seen <= |r.commits| && r.phase == ProvisionCheck && Projectable(Replica(r))
    ensures DaemonNext(policy, pw, r, r') && r'.commits == r.commits && r'.seen == r.seen
    ensures if r.seqno != r.changeSeqno && Configured(Replica(r).systems)
            then r'.phase == HandOver && r'.ntpdStarted
            else r'.phase == ProvisionHead && r'.ntpdStarted == r.ntpdStarted
  {
    if r.seqno == r.changeSeqno {
      r' := r.(phase := ProvisionHead);
    } else if !Configured(Replica(r).systems) {
      r' := r.(seqno := r.changeSeqno, phase := ProvisionHead);
    } else {
      var after, t := ReconcileExists(policy, pw, r.cache, Started(pw), Replica(r));
      r' := r.(seqno := r.changeSeqno, phase := HandOver, ntpdStarted := true, cache := after, ntpd := t);
    }
    assert ProvisionStep(policy, pw, r, r');
  }

  lemma MainSteps(policy: Policy, pw: string, r: Run) returns (r': Run)
    requires r.seen <= |r.commits| && r.phase == MainCheck && Projectable(Replica(r))
    ensures DaemonNext(policy, pw, r, r') && r'.commits == r.commits && r'.seen == r.seen
    ensures r'.phase == MainHead && r'.ntpdStarted == r.ntpdStarted
  {
    if r.seqno == r.changeSeqno {
      r' := r.(phase := MainHead, polls := r.polls + 1);
    } else {
      var after, t := ReconcileExists(policy, pw, r.cache, r.ntpd, Replica(r));
      r' := r.(seqno := r.changeSeqno, phase := MainHead, cache := after, ntpd := t);
    }
    assert MainStep(policy, pw, r, r');
  }

  lemma DaemonNextKeepsInv(policy: Policy, pw: string, r: Run, r': Run)
    requires IsToken(pw) && Inv(pw, r) && DaemonNext(policy, pw, r, r')
    ensures Inv(pw, r')
  {
    NextPreserves(policy, pw, r, r');
  }

  /** Some step of the daemon brings it closer. */
  lemma StepCloser(policy: Policy, pw: string, r: Run) returns (r': Run)
    requires Good(pw, r) && Projectable(Replica(r)) && Serviceable(r) && StepsLeft(r) > 0
    ensures DaemonNext(policy, pw, r, r') && r'.commits == r.commits && r'.seen <= |r'.commits|
    ensures Serviceable(r') && StepsLeft(r') < StepsLeft(r)
  {
    match r.phase
    case ProvisionHead => r' := HeadSteps(policy, pw, r);
    case MainHead => r' := HeadSteps(policy, pw, r);
    case ProvisionCheck => r' := ProvisionSteps(policy, pw, r);
    case MainCheck => r' := MainSteps(policy, pw, r);
    case HandOver =>
      r' := r.(seqno := r.changeSeqno, phase := MainHead);
      assert HandOverStep(r, r');
  }

  ghost predicate PathStepAt(policy: Policy, pw: string, path: seq<Run>, i: int) {
    0 < i < |path| ==> DaemonNext(policy, pw, path[i - 1], path[i])
  }

  /**
   Progress.  From every state of every run, once the replica or the database says "configured", some steps of the
   daemon alone lead to the head of the main loop with every commit seen.
   */
  lemma {:induction false} ReachesMainHead(policy: Policy, pw: string, r: Run) returns (path: seq<Run>)
    requires IsToken(pw) && Inv(pw, r) && r.seen <= |r.commits| && Serviceable(r)
    ensures path != [] && path[0] == r && forall i :: PathStepAt(policy, pw, path, i)
    ensures var last := path[|path| - 1];
      last.phase == MainHead && last.commits == r.commits && last.seen == |r.commits|
    decreases StepsLeft(r)
  {
    if StepsLeft(r) == 0 {
      path := [r];
    } else {
      ReplicaIsOk(pw, r);
      GoodTablesProject(Replica(r));
      InvMeans(pw, r);
      var r' := StepCloser(policy, pw, r);
      DaemonNextKeepsInv(policy, pw, r, r');
      var rest := ReachesMainHead(policy, pw, r');
      path := [r] + rest;
      forall i ensures PathStepAt(policy, pw, path, i) {
        assert PathStepAt(policy, pw, rest, i - 1);
      }
    }
  }

  /** The key ids that the tables ask the NTP daemon to trust. */
  function TrustedRows(snap: Snapshot): set<int> {
    set row | row in snap.keys && row.trust && AuthOf(snap.systems) == "true" :: row.keyId
  }

  lemma TrustedRowsAreCached(snap: Snapshot, db: KeyDb)
    requires ProjectsKeys(snap.keys, AuthOf(snap.systems), db)
    ensures db.Keys == TrustedRows(snap)
  {
    forall id | id in db
      ensures id in TrustedRows(snap)
    {
      var row :| row in snap.keys && Eligible(row, AuthOf(snap.systems)) && row.keyId == id;
    }
    forall id | id in TrustedRows(snap)
      ensures id in db
    {
      var row :| row in snap.keys && row.trust && AuthOf(snap.systems) == "true" && row.keyId == id;
      assert Eligible(row, AuthOf(snap.systems));
    }
  }

  /**
   At the head of the main loop the loaded key ids, the trusted key ids and the rows agree:
   the control key and, only with authentication on, the trusted rows.
   */
  lemma TrustFollowsTables(policy: Policy, pw: string, trace: seq<Run>, n: nat)
    requires IsToken(pw) && Behaviour(policy, pw, trace) && n < |trace|
    requires trace[n].phase == MainHead
    ensures trace[n].seen <= |trace[n].commits|
    ensures trace[n].ntpd.trusted == {CONTROL_KEY} + TrustedRows(Replica(trace[n]))
    ensures trace[n].ntpd.loaded.Keys == {CONTROL_KEY} + TrustedRows(Replica(trace[n]))
  {
    BehaviourInvariant(policy, pw, trace, n);
    assert Unfolded(PlanLayer, 0);
    var r := trace[n];
    ReplicaIsOk(pw, r);
    ProjectionIsOk(Replica(r), r.cache);
    TrustedRowsAreCached(Replica(r), r.cache.ntpkDb);
  }

  lemma StepIsSafe(policy: Policy, pw: string, r: Run, r': Run) returns (cs: seq<Command>, keysFile: string)
    requires IsToken(pw) && Inv(pw, r) && Next(policy, pw, r, r')
    ensures r'.ntpd == r.ntpd || SafeDelivery(policy, pw, r.cache, r.ntpd, r'.cache, r'.ntpd, cs, keysFile)
  {
    ReplicaIsOk(pw, r);
    InvMeans(pw, r);
    cs, keysFile := [], "";
    if Reconciles(policy, pw, r.cache, r.ntpd, Replica(r), r'.cache, r'.ntpd) {
      cs, keysFile := ReconcileIsSafe(policy, pw, r.cache, r.ntpd, Replica(r), r'.cache, r'.ntpd);
    }
  }

  /**
   Every change of the NTP daemon in every run is one delivery that is safe throughout: no
   trusted key is missing, no `server` command conflicts, the control key stays trusted and loaded
   at every single command.
   */
  lemma RunsAreSafe(policy: Policy, pw: string, trace: seq<Run>, n: nat) returns (cs: seq<Command>, keysFile: string)
    requires IsToken(pw) && Behaviour(policy, pw, trace) && 0 < n < |trace|
    ensures
      || trace[n].ntpd == trace[n - 1].ntpd
      || SafeDelivery(policy, pw, trace[n - 1].cache, trace[n - 1].ntpd, trace[n].cache, trace[n].ntpd, cs, keysFile)
  {
    BehaviourInvariant(policy, pw, trace, n - 1);
    assert StepAt(policy, pw, trace, n);
    cs, keysFile := StepIsSafe(policy, pw, trace[n - 1], trace[n]);
  }

  lemma InvMeans(pw: string, r: Run)
    requires Inv(pw, r)
    ensures Good(pw, r)
  {
    assert Unfolded(PlanLayer, 0);
  }

  /** In no state of any run is the control key untrusted. */
  lemma ControlKeyStaysTrusted(policy: Policy, pw: string, trace: seq<Run>, n: nat)
    requires IsToken(pw) && Behaviour(policy, pw, trace) && n < |trace|
    ensures 65535 in trace[n].ntpd.trusted && 65535 in trace[n].ntpd.loaded && trace[n].ntpd.loaded[65535] == pw
  {
    BehaviourInvariant(policy, pw, trace, n);
    assert Unfolded(PlanLayer, 0);
  }
}
