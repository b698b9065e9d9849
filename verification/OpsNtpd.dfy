/** The configuration daemon itself: its globals as fields, its functions and loops as methods. */
module OpsNtpd {
  import opened Wrappers
  import opened Text
  import opened Enumerations
  import opened Ntpd
  import opened CommandText
  import opened Plans
  import opened Projection
  import opened KeyAgreement
  import opened Daemon
  import opened Unfolding

  // ---------- command texts as the daemon puts them together ----------

  function UnconfigText(address: string): string {
    Line([":config", "unconfig", address])
  }

  /** The rendering used for added associations: pieces appended one by one. */
  function AddText(r: NtpaRecord): string {
    Line([":config", "server", r.address]) + Spaced(["version", r.version])
    + (if r.keyId.Some? then Spaced(["key", Decimal(r.keyId.value)]) else "")
    + (if r.prefer != DEFAULT_PREFER then Spaced(["prefer"]) else "")
  }

  /** The rendering used for revised associations: one of two templates. */
  function ReviseText(r: NtpaRecord): string
    requires r.keyId.Some?
  {
    if r.prefer != DEFAULT_PREFER then
      Line([":config", "server", r.address, "version", r.version, "key", Decimal(r.keyId.value), "prefer"])
    else
      Line([":config", "server", r.address, "version", r.version, "key", Decimal(r.keyId.value)])
  }

  lemma {:induction false} AddTextRenders(r: NtpaRecord)
    ensures AddText(r) == Render(ServerCommand(r))
  {
    var start, version := [":config", "server", r.address], ["version", r.version];
    var key := if r.keyId.Some? then ["key", Decimal(r.keyId.value)] else [];
    var prefer := if r.prefer != DEFAULT_PREFER then ["prefer"] else [];
    assert CommandWords(ServerCommand(r)) == start + version + key + prefer;
    LineAppend(start, version);
    LineAppend(start + version, key);
    LineAppend(start + version + key, prefer);
  }

  lemma ReviseWords(address: string, p: Params)
    requires p.key.Some?
    ensures CommandWords(Server(address, p)) ==
      if p.prefer then [":config", "server", address, "version", p.version, "key", Decimal(p.key.value), "prefer"]
      else [":config", "server", address, "version", p.version, "key", Decimal(p.key.value)]
  {
  }

  /** Both renderings of a record are the same text, and that text reads back as the record. */
  lemma {:induction false} RenderingsAgree(r: NtpaRecord)
    ensures r.keyId.Some? ==> ReviseText(r) == AddText(r)
    ensures IsToken(r.address) && IsToken(r.version) ==>
      ReadCommand(AddText(r)) == Some(ServerCommand(r))
  {
    AddTextRenders(r);
    if r.keyId.Some? {
      ReviseWords(r.address, ParamsOf(r));
    }
    if IsToken(r.address) && IsToken(r.version) {
      CommandRoundTrip(ServerCommand(r));
    }
  }

  /** `[template + address for ...]` over the keys of deleted entries. */
  method DeleteTexts(ks: seq<NtpaKey>) returns (lines: seq<string>)
    ensures lines == RenderAll(DeleteCommands(ks))
  {
    lines := [];
    ghost var cs := [];
    for i := 0 to |ks|
      invariant cs == DeleteCommands(ks[..i]) && lines == RenderAll(cs)
    {
      DeleteCommandsAppend(ks[..i], ks[i]);
      assert ks[..i + 1] == ks[..i] + [ks[i]];
      RenderAllSnoc(cs, Unconfig(ks[i].1));
      lines, cs := lines + [UnconfigText(ks[i].1)], cs + [Unconfig(ks[i].1)];
    }
    assert ks[..|ks|] == ks;
  }

  lemma {:induction false} DeleteCommandsAppend(ks: seq<NtpaKey>, k: NtpaKey)
    ensures DeleteCommands(ks + [k]) == DeleteCommands(ks) + [Unconfig(k.1)]
  {
    if ks != [] {
      assert (ks + [k])[1..] == ks[1..] + [k];
      DeleteCommandsAppend(ks[1..], k);
    }
  }

  lemma {:induction false} AddCommandsAppend(ks: seq<NtpaKey>, k: NtpaKey, m: NtpaMap)
    requires k in m && forall j :: j in ks ==> j in m
    ensures AddCommands(ks + [k], m) == AddCommands(ks, m) + [ServerCommand(m[k])]
  {
    if ks != [] {
      assert (ks + [k])[1..] == ks[1..] + [k];
      AddCommandsAppend(ks[1..], k, m);
    }
  }

  lemma {:induction false} ReviseCommandsAppend(ks: seq<NtpaKey>, k: NtpaKey, m: NtpaMap)
    requires k in m && forall j :: j in ks ==> j in m
    ensures ReviseCommands(ks + [k], m) ==
            ReviseCommands(ks, m) + [Unconfig(m[k].address), ServerCommand(m[k])]
  {
    if ks == [] {
      assert ks + [k] == [k] && [k][1..] == [];
    } else {
      assert (ks + [k])[1..] == ks[1..] + [k];
      ReviseCommandsAppend(ks[1..], k, m);
    }
  }

  method AddConfig(r: NtpaRecord) returns (config: string)
    ensures [config] == RenderAll([ServerCommand(r)])
  {
    config := Line([":config", "server", r.address]);
    config := config + Spaced(["version", r.version]);
    if r.keyId.Some? {
      config := config + Spaced(["key", Decimal(r.keyId.value)]);
    }
    if r.prefer != DEFAULT_PREFER {
      config := config + Spaced(["prefer"]);
    }
    assert config == AddText(r);
    AddTextRenders(r);
    RenderTwo(ServerCommand(r), ServerCommand(r));
  }

  /** The texts of the first `n` additions. */
  ghost function TextsOf(add: seq<NtpaKey>, m: NtpaMap, n: nat): seq<string>
    requires n <= |add| && forall k :: k in add ==> k in m
  {
    RenderAll(AddCommands(add[..n], m))
  }

  lemma OneMoreText(add: seq<NtpaKey>, m: NtpaMap, n: nat)
    requires n < |add| && forall k :: k in add ==> k in m
    ensures TextsOf(add, m, n + 1) == TextsOf(add, m, n) + RenderAll([ServerCommand(m[add[n]])])
  {
    assert add[..n + 1] == add[..n] + [add[n]];
    AddCommandsAppend(add[..n], add[n], m);
    RenderAllAppend(AddCommands(add[..n], m), [ServerCommand(m[add[n]])]);
  }

  method AddTexts(add: seq<NtpaKey>, m: NtpaMap) returns (lines: seq<string>)
    requires forall k :: k in add ==> k in m
    ensures lines == RenderAll(AddCommands(add, m))
  {
    lines := [];
    for i := 0 to |add|
      invariant lines == TextsOf(add, m, i)
    {
      var config := AddConfig(m[add[i]]);
      OneMoreText(add, m, i);
      lines := lines + [config];
    }
    assert add[..|add|] == add;
  }

  method ReviseConfig(r: NtpaRecord) returns (config: seq<string>)
    requires r.keyId.Some?
    ensures config == RenderAll([Unconfig(r.address), ServerCommand(r)])
  {
    config := [UnconfigText(r.address)];
    if r.prefer != DEFAULT_PREFER {
      config := config + [Line([":config", "server", r.address, "version", r.version, "key", Decimal(r.keyId.value), "prefer"])];
    } else {
      config := config + [Line([":config", "server", r.address, "version", r.version, "key", Decimal(r.keyId.value)])];
    }
    assert config == [UnconfigText(r.address), ReviseText(r)];
    RenderingsAgree(r);
    AddTextRenders(r);
    RenderTwo(Unconfig(r.address), ServerCommand(r));
  }

  /** Reconfiguration of every keyed association of the map. */
  method ReviseTexts(m: NtpaMap) returns (revise: seq<NtpaKey>, lines: seq<string>)
    ensures Enumerates(revise, Keyed(m))
    ensures lines == RenderAll(ReviseCommands(revise, m))
  {
    revise, lines := [], [];
    ghost var cs: seq<Command>, done: set<NtpaKey> := [], {};
    var todo := m.Keys;
    while todo != {}
      invariant done !! todo && done + todo == m.Keys
      invariant Enumerates(revise, Keyed(m) * done)
      invariant cs == ReviseCommands(revise, m) && lines == RenderAll(cs)
      decreases todo
    {
      var x :| x in todo;
      if m[x].keyId.Some? {
        var config := ReviseConfig(m[x]);
        ReviseCommandsAppend(revise, x, m);
        RenderAllAppend(cs, [Unconfig(m[x].address), ServerCommand(m[x])]);
        ExtendEnumeration(revise, Keyed(m) * done, x);
        revise, lines := revise + [x], lines + config;
        cs := cs + [Unconfig(m[x].address), ServerCommand(m[x])];
      }
      assert Keyed(m) * (done + {x}) == if m[x].keyId.Some? then Keyed(m) * done + {x} else Keyed(m) * done;
      todo, done := todo - {x}, done + {x};
    }
    assert Keyed(m) * done == Keyed(m);
  }

  method WriteKeysFile(controlPassword: string, db: KeyDb) returns (keysFile: string)
    ensures KeysFileOf(controlPassword, db, keysFile)
  {
    var items := Walk(db.Keys);
    keysFile := KeysFile(controlPassword, items, db);
  }

  /** One `trustedkey` and one `unconfig trustedkey` command at most; none for an empty list. */
  method TrustConfigs(ghost before: KeyDb, ghost after: KeyDb, untrusted: seq<int>, trusted: seq<int>)
    returns (lines: seq<string>, ghost cs: seq<Command>)
    requires Enumerates(untrusted, before.Keys - after.Keys) && Enumerates(trusted, after.Keys)
    ensures KeyPlan(before, after, cs) && lines == RenderAll(cs)
    ensures lines == (if untrusted == [] then [] else [Render(Untrust(untrusted))]) + (if trusted == [] then [] else [Render(Trust(trusted))])
  {
    var trustConfig, untrustConfig := [], [];
    if |trusted| > 0 {
      trustConfig := [Render(Trust(trusted))];
    }
    if |untrusted| > 0 {
      untrustConfig := [Render(Untrust(untrusted))];
    }
    lines := untrustConfig + trustConfig;
    cs := TrustCommands(untrusted, trusted);
    TrustTexts(untrusted, trusted);
  }

  /** How a walk over the old and the new keys has sorted the keys visited so far. */
  ghost predicate Sorted(before: NtpaMap, after: NtpaMap, done: set<NtpaKey>, del: seq<NtpaKey>, add: seq<NtpaKey>) {
    Enumerates(del, Deleted(before, after) * done) && Enumerates(add, Added(before, after) * done)
  }

  lemma SortedStep(before: NtpaMap, after: NtpaMap, done: set<NtpaKey>, del: seq<NtpaKey>, add: seq<NtpaKey>, k: NtpaKey)
    requires Sorted(before, after, done, del, add) && k !in done
    ensures Sorted(before, after, done + {k},
                   if k in Deleted(before, after) then del + [k] else del,
                   if k in Added(before, after) then add + [k] else add)
  {
    var d, a := Deleted(before, after), Added(before, after);
    if k in d {
      ExtendEnumeration(del, d * done, k);
    }
    if k in a {
      ExtendEnumeration(add, a * done, k);
    }
    assert d * (done + {k}) == if k in d then d * done + {k} else d * done;
    assert a * (done + {k}) == if k in a then a * done + {k} else a * done;
  }

  /** The cached map in the middle of the walk: new where visited, old elsewhere. */
  ghost predicate HalfWay(before: NtpaMap, after: NtpaMap, done: set<NtpaKey>, m: NtpaMap) {
    forall k :: if k in done then (k in m <==> k in after) && (k in m ==> m[k] == after[k])
                else (k in m <==> k in before) && (k in m ==> m[k] == before[k])
  }

  class OpsNtpd {
    const controlPassword: string
    const policy: Policy

    var ntpaMap: NtpaMap
    var ntpkDb: KeyDb
    var authState: string

    /** The NTP daemon that the commands reach. */
    var ntpd: State

    var replica: Snapshot
    var changeSeqno: nat
    var seqno: nat
    var ntpdStarted: bool
    ghost var commits: seq<Snapshot>
    ghost var seen: nat
    ghost var phase: Phase
    ghost var polls: nat

    constructor (controlPassword: string, policy: Policy)
      ensures this.controlPassword == controlPassword && this.policy == policy
      ensures Init(controlPassword, Abs()) && ReplicaKnown()
    {
      this.controlPassword, this.policy := controlPassword, policy;
      ntpaMap, ntpkDb, authState := map[], map[], "false";
      ntpd := Started(controlPassword);
      replica, changeSeqno, seqno, ntpdStarted := EMPTY_SNAPSHOT, 0, 0, false;
      commits, seen, phase, polls := [], 0, ProvisionHead, 0;
    }

    ghost function CacheOf(): Cache
      reads this`ntpaMap, this`ntpkDb, this`authState
    {
      Cache(ntpaMap, ntpkDb, authState)
    }

    ghost function Abs(): Run
      reads this
    {
      Run(commits, seen, changeSeqno, seqno, phase, ntpdStarted, CacheOf(), ntpd, polls)
    }

    /** The replica field holds what the run has seen. */
    ghost predicate ReplicaKnown()
      reads this
    {
      seen <= |commits| && replica == Replica(Abs())
    }

    /** `ops_ntpd_check_updates_with_ntp_associations` */
    method CheckAssociations(updates: NtpaMap, trigger: bool) returns (lines: seq<string>, ghost cs: seq<Command>)
      modifies this`ntpaMap
      ensures ntpaMap == updates
      ensures ServerPlan(old(ntpaMap), updates, trigger, cs) && lines == RenderAll(cs)
    {
      ghost var before := ntpaMap;
      var add: seq<NtpaKey>, delete: seq<NtpaKey> := [], [];
      var todo := updates.Keys + ntpaMap.Keys;
      ghost var done: set<NtpaKey> := {};
      while todo != {}
        invariant done !! todo && done + todo == updates.Keys + before.Keys
        invariant HalfWay(before, updates, done, ntpaMap)
        invariant Sorted(before, updates, done, delete, add)
        decreases todo
      {
        var k :| k in todo;
        SortedStep(before, updates, done, delete, add, k);
        if k in updates {
          var v := updates[k];
          if k !in ntpaMap {
            add := add + [k];
            ntpaMap := ntpaMap[k := v];
          } else if v != ntpaMap[k] {
            delete := delete + [k];
            add := add + [k];
            ntpaMap := ntpaMap[k := v];
          }
        } else {
          delete := delete + [k];
          ntpaMap := ntpaMap - {k};
        }
        todo, done := todo - {k}, done + {k};
      }
      assert ntpaMap == updates by {
        assert forall k :: k in ntpaMap || k in updates ==> k in done;
      }
      assert Deleted(before, updates) * done == Deleted(before, updates);
      assert Added(before, updates) * done == Added(before, updates);
      var deleteConfigs := DeleteTexts(delete);
      var addConfigs := AddTexts(add, ntpaMap);
      var revise: seq<NtpaKey>, reviseConfigs: seq<string> := [], [];
      if trigger {
        revise, reviseConfigs := ReviseTexts(ntpaMap);
      }
      lines := reviseConfigs + deleteConfigs + addConfigs;
      cs := PlanOf(revise, delete, add, updates);
      RenderAllAppend(ReviseCommands(revise, updates) + DeleteCommands(delete), AddCommands(add, updates));
      RenderAllAppend(ReviseCommands(revise, updates), DeleteCommands(delete));
      PlanOfWalks(before, updates, trigger, revise, delete, add);
    }

    /** `ops_ntpd_check_updates_with_ntp_keys` */
    method CheckKeys(updates: KeyDb) returns (lines: seq<string>, keysFile: string, ghost cs: seq<Command>)
      modifies this`ntpkDb
      ensures ntpkDb == updates
      ensures KeyPlan(old(ntpkDb), updates, cs) && lines == RenderAll(cs)
      ensures KeysFileOf(controlPassword, updates, keysFile)
    {
      ghost var before := ntpkDb;
      var trusted: seq<int>, untrusted: seq<int> := [], [];
      if |updates| > 0 && |ntpkDb| > 0 {
        untrusted := Walk(ntpkDb.Keys - updates.Keys);
        ntpkDb := updates;
        trusted := Walk(ntpkDb.Keys);
      } else if |ntpkDb| == 0 {
        ntpkDb := updates;
        trusted := Walk(ntpkDb.Keys);
      } else if |updates| == 0 {
        untrusted := Walk(ntpkDb.Keys);
        ntpkDb := map[];
      }
      assert |before| == 0 || |updates| == 0 ==> before.Keys - updates.Keys == if |before| == 0 then {} else before.Keys;
      keysFile := WriteKeysFile(controlPassword, ntpkDb);
      lines, cs := TrustConfigs(before, updates, untrusted, trusted);
    }

    /** `ops_ntpd_sync_updates_to_ntpd`: keys file and `readkeys` first, then all commands. */
    method SyncUpdates(serverConfigs: seq<string>, keyConfigs: seq<string>, keysFile: string)
      modifies this`ntpd
      ensures Delivered(policy, old(ntpd), keysFile, serverConfigs + keyConfigs, ntpd)
    {
      var command := serverConfigs + keyConfigs;
      ntpd := ntpd.(loaded := ReadKeys(keysFile));
      ghost var goal := ExecText(policy, ntpd, command);
      var i := 0;
      while i < |command|
        invariant 0 <= i <= |command|
        invariant ExecText(policy, ntpd, command[i..]) == goal
      {
        ntpd := StepText(policy, ntpd, command[i]);
        assert command[i..][1..] == command[i + 1..];
        i := i + 1;
      }
    }

    /** `ops_ntpd_check_updates_from_ovsdb`; false when a loop variable is read before it is set. */
    method CheckUpdatesFromOvsdb() returns (ok: bool)
      modifies this`ntpaMap, this`ntpkDb, this`authState, this`ntpd
      ensures ok <==> Projectable(replica)
      ensures ok ==> Reconciles(policy, controlPassword, old(CacheOf()), old(ntpd), replica, CacheOf(), ntpd)
    {
      ghost var before, s := CacheOf(), ntpd;
      ProjectableMeans(replica);
      var trigger := false;
      var authentication := ReadAuthentication(replica.systems);
      if authState != authentication {
        trigger := true;
        authState := authentication;
      }
      var keys := ProjectKeys(replica.keys, authentication);
      if keys.None? {
        return false;
      }
      var keyConfigs, keysFile, trusts := CheckKeys(keys.value);
      var assocs := ProjectAssocs(replica.assocs);
      if assocs.None? {
        return false;
      }
      var serverConfigs, servers := CheckAssociations(assocs.value, trigger);
      SyncUpdates(serverConfigs, keyConfigs, keysFile);
      ReconcileOfParts(policy, controlPassword, before, s, replica, CacheOf(), ntpd, servers, trusts, keysFile);
      ok := true;
    }

    /** Other parties commit. */
    ghost method Commit(snaps: seq<Snapshot>)
      requires IsToken(controlPassword) && Inv(controlPassword, Abs()) && ReplicaKnown()
      requires forall i :: 0 <= i < |snaps| ==> TablesOk(snaps[i])
      modifies this`commits
      ensures commits == old(commits) + snaps
      ensures Inv(controlPassword, Abs()) && ReplicaKnown()
    {
      for i := 0 to |snaps|
        invariant commits == old(commits) + snaps[..i]
        invariant Inv(controlPassword, Abs()) && ReplicaKnown()
      {
        ghost var r := Abs();
        commits := commits + [snaps[i]];
        assert CommitStep(r, Abs());
        NextPreserves(policy, controlPassword, r, Abs());
        assert snaps[..i + 1] == snaps[..i] + [snaps[i]];
      }
      assert snaps[..|snaps|] == snaps;
    }

    /** `idl.run`: the commits in `arriving` reach the replica. */
    method IdlRun(arriving: seq<Snapshot>)
      requires IsToken(controlPassword) && Inv(controlPassword, Abs()) && ReplicaKnown()
      requires phase == ProvisionHead || phase == MainHead
      requires seen == |commits|
      requires forall i :: 0 <= i < |arriving| ==> TablesOk(arriving[i])
      modifies this`commits, this`replica, this`changeSeqno, this`seen, this`phase
      ensures Inv(controlPassword, Abs()) && ReplicaKnown() && seen == |commits|
      ensures commits == old(commits) + arriving
      ensures changeSeqno == old(changeSeqno) + |arriving|
      ensures phase == if old(phase) == ProvisionHead then ProvisionCheck else MainCheck
    {
      Commit(arriving);
      ghost var r := Abs();
      changeSeqno := changeSeqno + |arriving|;
      if |arriving| > 0 {
        replica := arriving[|arriving| - 1];
      }
      seen := |commits|;
      phase := if phase == ProvisionHead then ProvisionCheck else MainCheck;
      assert IdlRunStep(r, Abs());
      NextPreserves(policy, controlPassword, r, Abs());
    }

    /** `ops_ntpd_provision_ntpd_daemon` */
    method Provision(arriving: seq<Snapshot>)
      requires IsToken(controlPassword) && Inv(controlPassword, Abs()) && ReplicaKnown()
      requires phase == ProvisionHead && !ntpdStarted && seen == |commits|
      requires forall i :: 0 <= i < |arriving| ==> TablesOk(arriving[i])
      modifies this
      ensures Inv(controlPassword, Abs()) && ReplicaKnown() && seen == |commits|
      ensures commits == old(commits) + arriving
      ensures phase == (if ntpdStarted then HandOver else ProvisionHead)
    {
      IdlRun(arriving);
      ghost var r := Abs();
      ReplicaIsOk(controlPassword, r);
      GoodTablesProject(replica);
      ProvisionIfChanged();
      NextPreserves(policy, controlPassword, r, Abs());
    }

    /** A fresh NTP daemon with the default files, brought to the replica's configuration. */
    method StartNtpd()
      requires Projectable(replica)
      modifies this`ntpaMap, this`ntpkDb, this`authState, this`ntpd
      ensures Reconciles(policy, controlPassword, old(CacheOf()), Started(controlPassword), replica, CacheOf(), ntpd)
    {
      ntpd := Started(controlPassword);
      var ok := CheckUpdatesFromOvsdb();
    }

    method ProvisionIfChanged()
      requires ReplicaKnown() && phase == ProvisionCheck && Projectable(replica)
      modifies this
      ensures ReplicaKnown() && ProvisionStep(policy, controlPassword, old(Abs()), Abs())
    {
      if seqno != changeSeqno {
        ProvisionIfConfigured();
      } else {
        phase := ProvisionHead;
      }
    }

    method ProvisionIfConfigured()
      requires ReplicaKnown() && phase == ProvisionCheck && Projectable(replica) && seqno != changeSeqno
      modifies this
      ensures ReplicaKnown() && ProvisionStep(policy, controlPassword, old(Abs()), Abs())
    {
      ghost var r := Abs();
      seqno := changeSeqno;
      var configured := CheckSystemStatus(replica.systems);
      if !configured {
        phase := ProvisionHead;
        ProvisionWaitsOf(policy, controlPassword, r, Abs());
        return;
      }
      StartNtpd();
      ghost var r' := r.(seqno := changeSeqno, phase := HandOver, ntpdStarted := true, cache := CacheOf(), ntpd := ntpd);
      ntpdStarted, phase := true, HandOver;
      assert Abs() == r';
    }

    /** One iteration of the main loop. */
    method Serve(arriving: seq<Snapshot>)
      requires IsToken(controlPassword) && Inv(controlPassword, Abs()) && ReplicaKnown()
      requires phase == MainHead && ntpdStarted && seen == |commits|
      requires forall i :: 0 <= i < |arriving| ==> TablesOk(arriving[i])
      modifies this
      ensures Inv(controlPassword, Abs()) && ReplicaKnown() && seen == |commits|
      ensures commits == old(commits) + arriving
      ensures phase == MainHead && ntpdStarted
    {
      IdlRun(arriving);
      ghost var r := Abs();
      ReplicaIsOk(controlPassword, r);
      GoodTablesProject(replica);
      PollOrReconcile();
      NextPreserves(policy, controlPassword, r, Abs());
    }

    method PollOrReconcile()
      requires ReplicaKnown() && phase == MainCheck
      requires Projectable(replica)
      modifies this
      ensures ReplicaKnown() && MainStep(policy, controlPassword, old(Abs()), Abs())
    {
      if seqno == changeSeqno {
        polls := polls + 1;
      } else {
        ghost var r := Abs();
        var ok := CheckUpdatesFromOvsdb();
        ghost var r' := r.(seqno := changeSeqno, phase := MainHead, cache := CacheOf(), ntpd := ntpd);
        MainStepOf(policy, controlPassword, r, r');
        seqno, phase := changeSeqno, MainHead;
        assert Abs() == r';
      }
      phase := MainHead;
    }

    /**
     `ops_ntpd_init`: the two loops.  `batches[i]` are the commits that the i-th `idl.run`
     delivers.  However the commits are grouped, once the NTP daemon has been started it and
     the cached maps equal the projection of the last snapshot delivered; it is started as
     soon as a delivered snapshot says "configured".
     */
    method RunLoops(batches: seq<seq<Snapshot>>)
      requires IsToken(controlPassword) && Init(controlPassword, Abs()) && ReplicaKnown()
      requires forall i, j :: 0 <= i < |batches| && 0 <= j < |batches[i]| ==> TablesOk(batches[i][j])
      modifies this
      ensures replica == LastOf(Flatten(batches))
      ensures ntpdStarted ==> Synced(controlPassword, replica, CacheOf(), ntpd)
      ensures !ntpdStarted ==> !Configured(replica.systems)
    {
      InitEstablishes(controlPassword, Abs());
      var i := 0;
      while !ntpdStarted && i < |batches|
        invariant 0 <= i <= |batches|
        invariant Inv(controlPassword, Abs()) && ReplicaKnown() && seen == |commits|
        invariant commits == Flatten(batches[..i])
        invariant phase == if ntpdStarted then HandOver else ProvisionHead
      {
        Provision(batches[i]);
        FlattenAppend(batches, i);
        i := i + 1;
      }
      if ntpdStarted {
        ghost var r := Abs();
        seqno := changeSeqno;
        phase := MainHead;
        assert HandOverStep(r, Abs());
        NextPreserves(policy, controlPassword, r, Abs());
        MainLoop(batches, i);
      }
      assert batches[..i] == batches[..|batches|] || ntpdStarted;
      assert batches[..|batches|] == batches;
      assert Unfolded(PlanLayer, 0);
    }

    /** The main loop, from its i-th batch on. */
    method MainLoop(batches: seq<seq<Snapshot>>, start: nat)
      requires IsToken(controlPassword) && Inv(controlPassword, Abs()) && ReplicaKnown() && seen == |commits|
      requires forall i, j :: 0 <= i < |batches| && 0 <= j < |batches[i]| ==> TablesOk(batches[i][j])
      requires start <= |batches| && commits == Flatten(batches[..start])
      requires phase == MainHead && ntpdStarted
      modifies this
      ensures Inv(controlPassword, Abs()) && ReplicaKnown() && seen == |commits|
      ensures commits == Flatten(batches)
      ensures phase == MainHead && ntpdStarted
    {
      var i := start;
      while i < |batches|
        invariant start <= i <= |batches|
        invariant Inv(controlPassword, Abs()) && ReplicaKnown() && seen == |commits|
        invariant commits == Flatten(batches[..i])
        invariant phase == MainHead && ntpdStarted
      {
        Serve(batches[i]);
        FlattenAppend(batches, i);
        i := i + 1;
      }
      assert batches[..i] == batches;
    }
  }

  function Flatten(batches: seq<seq<Snapshot>>): seq<Snapshot> {
    if batches == [] then [] else Flatten(batches[..|batches| - 1]) + batches[|batches| - 1]
  }

  lemma FlattenAppend(batches: seq<seq<Snapshot>>, i: nat)
    requires i < |batches|
    ensures Flatten(batches[..i + 1]) == Flatten(batches[..i]) + batches[i]
  {
    assert batches[..i + 1][..i] == batches[..i];
  }

  function LastOf(snaps: seq<Snapshot>): Snapshot {
    if snaps == [] then EMPTY_SNAPSHOT else snaps[|snaps| - 1]
  }

  lemma ProvisionWaitsOf(policy: Policy, pw: string, r: Run, r': Run)
    requires r.seen <= |r.commits| && r.phase == ProvisionCheck && r.seqno != r.changeSeqno
    requires !Configured(Replica(r).systems) && r' == r.(seqno := r.changeSeqno, phase := ProvisionHead)
    ensures ProvisionStep(policy, pw, r, r')
  {
  }

  lemma MainStepOf(policy: Policy, pw: string, r: Run, r': Run)
    requires r.seen <= |r.commits| && r.phase == MainCheck && r.seqno != r.changeSeqno
    requires Reconciles(policy, pw, r.cache, r.ntpd, Replica(r), r'.cache, r'.ntpd)
    requires r' == r.(seqno := r.changeSeqno, phase := MainHead, cache := r'.cache, ntpd := r'.ntpd)
    ensures MainStep(policy, pw, r, r')
  {
  }

  lemma TrustTexts(untrusted: seq<int>, trusted: seq<int>)
    ensures RenderAll(TrustCommands(untrusted, trusted)) ==
      (if untrusted == [] then [] else [Render(Untrust(untrusted))]) +
      (if trusted == [] then [] else [Render(Trust(trusted))])
  {
    var u := if untrusted == [] then [] else [Untrust(untrusted)];
    var t := if trusted == [] then [] else [Trust(trusted)];
    RenderAllAppend(u, t);
  }
}
