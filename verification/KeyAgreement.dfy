/** Keys and trust: what the trust commands and the keys file do to the NTP daemon. */
module KeyAgreement {
  import opened Text
  import opened Enumerations
  import opened Ntpd
  import opened CommandText
  import opened Plans
  import opened Convergence
  import opened Unfolding

  /**
   One delivery: the keys file is written and read back first, then the server commands
   run, then the trust commands.
   */
  function Deliver(policy: Policy, s: State, keysFile: string, servers: seq<Command>, trusts: seq<Command>): State {
    Exec(policy, s.(loaded := ReadKeys(keysFile)), servers + trusts)
  }

  /** The same delivery as text. */
  function DeliverText(policy: Policy, s: State, keysFile: string, lines: seq<string>): State {
    ExecText(policy, s.(loaded := ReadKeys(keysFile)), lines)
  }

  /** `t` is the state after the delivery; unfolded on demand. */
  ghost predicate Delivered(policy: Policy, s: State, keysFile: string, lines: seq<string>, t: State) {
    forall k {:trigger Unfolded(PlanLayer, k)} :: Unfolded(PlanLayer, k) ==> t == DeliverText(policy, s, keysFile, lines)
  }

  /** Every key a trust command names is loaded when that command arrives. */
  predicate TrustsLoadedKeys(policy: Policy, s: State, cs: seq<Command>)
    decreases |cs|
  {
    cs == [] ||
    ((cs[0].Trust? ==> forall id :: id in cs[0].ids ==> id in s.loaded)
     && TrustsLoadedKeys(policy, Step(policy, s, cs[0]), cs[1..]))
  }

  lemma {:induction false} TrustsLoadedAppend(policy: Policy, s: State, a: seq<Command>, b: seq<Command>)
    ensures TrustsLoadedKeys(policy, s, a + b)
       <==> TrustsLoadedKeys(policy, s, a) && TrustsLoadedKeys(policy, Exec(policy, s, a), b)
    decreases |a|
  {
    if a == [] {
      assert a + b == b;
    } else {
      assert (a + b)[1..] == a[1..] + b;
      TrustsLoadedAppend(policy, Step(policy, s, a[0]), a[1..], b);
    }
  }

  predicate NoTrust(cs: seq<Command>) {
    forall i :: 0 <= i < |cs| ==> cs[i].Unconfig? || cs[i].Server?
  }

  lemma {:induction false} ServersTrustNothing(policy: Policy, s: State, cs: seq<Command>)
    requires NoTrust(cs)
    ensures TrustsLoadedKeys(policy, s, cs)
    ensures Exec(policy, s, cs).loaded == s.loaded && Exec(policy, s, cs).trusted == s.trusted
    decreases |cs|
  {
    if cs != [] {
      assert NoTrust(cs[1..]) by {
        assert forall i :: 0 <= i < |cs[1..]| ==> cs[1..][i] == cs[i + 1];
      }
      ServersTrustNothing(policy, Step(policy, s, cs[0]), cs[1..]);
    }
  }

  lemma PlanHasNoTrust(rev: seq<NtpaKey>, del: seq<NtpaKey>, add: seq<NtpaKey>, after: NtpaMap)
    requires forall k :: k in rev ==> k in after
    requires forall k :: k in add ==> k in after
    ensures NoTrust(PlanOf(rev, del, add, after))
  {
    BlocksHaveNoTrust(rev, after);
    BlocksHaveNoTrust(add, after);
    DeletesHaveNoTrust(del);
  }

  lemma {:induction false} BlocksHaveNoTrust(ks: seq<NtpaKey>, m: NtpaMap)
    requires forall k :: k in ks ==> k in m
    ensures NoTrust(ReviseCommands(ks, m)) && NoTrust(AddCommands(ks, m))
  {
    if ks != [] {
      BlocksHaveNoTrust(ks[1..], m);
    }
  }

  lemma {:induction false} DeletesHaveNoTrust(ks: seq<NtpaKey>)
    ensures NoTrust(DeleteCommands(ks))
  {
    if ks != [] {
      DeletesHaveNoTrust(ks[1..]);
    }
  }

  /** A server plan trusts nothing and leaves the keys alone. */
  lemma PlanTrustsNothing(policy: Policy, s: State, before: NtpaMap, after: NtpaMap, trigger: bool, cs: seq<Command>)
    requires ServerPlan(before, after, trigger, cs)
    ensures TrustsLoadedKeys(policy, s, cs)
    ensures Exec(policy, s, cs).loaded == s.loaded && Exec(policy, s, cs).trusted == s.trusted
  {
    var rev, del, add := WalksOfPlan(before, after, trigger, cs);
    PlanHasNoTrust(rev, del, add, after);
    ServersTrustNothing(policy, s, cs);
  }

  lemma TrustCommandsEffect(policy: Policy, s: State, untrusted: seq<int>, trusted: seq<int>)
    ensures Exec(policy, s, TrustCommands(untrusted, trusted))
         == s.(trusted := s.trusted - IdSet(untrusted) + IdSet(trusted))
    ensures IdSet(trusted) <= s.loaded.Keys ==> TrustsLoadedKeys(policy, s, TrustCommands(untrusted, trusted))
  {
    var u := if untrusted == [] then [] else [Untrust(untrusted)];
    var t := if trusted == [] then [] else [Trust(trusted)];
    var s1 := s.(trusted := s.trusted - IdSet(untrusted));
    ExecAppend(policy, s, u, t);
    TrustsLoadedAppend(policy, s, u, t);
    assert Exec(policy, s, u) == s1;
    assert forall id :: id in trusted ==> id in IdSet(trusted);
  }

  /** The trust commands run alone: the old cache's ids leave, the new cache's ids enter. */
  lemma TrustEffect(policy: Policy, s: State, before: KeyDb, after: KeyDb, cs: seq<Command>)
    requires KeyPlan(before, after, cs)
    ensures Exec(policy, s, cs) == s.(trusted := s.trusted - (before.Keys - after.Keys) + after.Keys)
    ensures after.Keys <= s.loaded.Keys ==> TrustsLoadedKeys(policy, s, cs)
  {
    assert Unfolded(PlanLayer, 0);
    var untrusted, trusted :|
      Enumerates(untrusted, before.Keys - after.Keys) && Enumerates(trusted, after.Keys) &&
      cs == TrustCommands(untrusted, trusted);
    assert IdSet(untrusted) == before.Keys - after.Keys;
    assert IdSet(trusted) == after.Keys;
    TrustCommandsEffect(policy, s, untrusted, trusted);
  }

  /**
   From a daemon that trusts the control key and the cached keys, a step leaves it trusting
   the control key and the new keys, if and only if the control key's id is not among the
   cached ids that go away.
   */
  lemma TrustConvergesExactly(policy: Policy, s: State, before: KeyDb, after: KeyDb, cs: seq<Command>)
    requires KeyPlan(before, after, cs) && s.trusted == {CONTROL_KEY} + before.Keys
    ensures Exec(policy, s, cs).trusted == {CONTROL_KEY} + after.Keys
       <==> !(CONTROL_KEY in before && CONTROL_KEY !in after)
  {
    TrustEffect(policy, s, before, after, cs);
  }

  /** For instance: a cache that held the control key and is emptied leaves the NTP daemon trusting nothing. */
  lemma ControlKeyIsLost(policy: Policy, s: State, password: string, cs: seq<Command>)
    requires s.trusted == {CONTROL_KEY} && KeyPlan(map[CONTROL_KEY := KeyEntry(password, true)], map[], cs)
    ensures Exec(policy, s, cs).trusted == {}
  {
    TrustEffect(policy, s, map[CONTROL_KEY := KeyEntry(password, true)], map[], cs);
  }

  /** The daemon has loaded and trusts the control key and the keys of the cache, nothing else. */
  predicate KeysAgree(s: State, controlPassword: string, db: KeyDb) {
    && s.loaded == map[CONTROL_KEY := controlPassword] + Passwords(db)
    && s.trusted == {CONTROL_KEY} + db.Keys
  }

  /** Server commands followed by trust commands, once the keys file has been read. */
  lemma DeliveryTrust(policy: Policy, s: State, ntpa: NtpaMap, ntpa': NtpaMap, trigger: bool, servers: seq<Command>,
                      ntpk: KeyDb, ntpk': KeyDb, trusts: seq<Command>)
    requires ServerPlan(ntpa, ntpa', trigger, servers) && KeyPlan(ntpk, ntpk', trusts)
    requires s.trusted == {CONTROL_KEY} + ntpk.Keys && CONTROL_KEY !in ntpk
    requires ntpk'.Keys <= s.loaded.Keys
    ensures Exec(policy, s, servers + trusts)
         == Exec(policy, s, servers).(trusted := {CONTROL_KEY} + ntpk'.Keys)
    ensures Exec(policy, s, servers).loaded == s.loaded
    ensures TrustsLoadedKeys(policy, s, servers + trusts)
  {
    var s1 := Exec(policy, s, servers);
    ExecAppend(policy, s, servers, trusts);
    TrustsLoadedAppend(policy, s, servers, trusts);
    PlanTrustsNothing(policy, s, ntpa, ntpa', trigger, servers);
    TrustEffect(policy, s1, ntpk, ntpk', trusts);
    assert {CONTROL_KEY} + ntpk.Keys - (ntpk.Keys - ntpk'.Keys) + ntpk'.Keys == {CONTROL_KEY} + ntpk'.Keys;
  }

  lemma ReadBack(controlPassword: string, db: KeyDb, keysFile: string)
    requires KeysFileOf(controlPassword, db, keysFile)
    requires IsToken(controlPassword) && forall id :: id in db ==> IsToken(db[id].password)
    ensures ReadKeys(keysFile) == map[CONTROL_KEY := controlPassword] + Passwords(db)
    ensures db.Keys <= ReadKeys(keysFile).Keys
  {
    assert Unfolded(PlanLayer, 0);
    var ids :| Enumerates(ids, db.Keys) && keysFile == KeysFile(controlPassword, ids, db);
    KeysFileRoundTrip(controlPassword, ids, db);
  }

  /**
   A whole delivery: afterwards the loaded and the trusted keys agree with the new cache, the
   associations run the new map, and every trusted key was loaded when it became trusted.
   */
  lemma DeliveryConverges(policy: Policy, s: State, controlPassword: string,
                          ntpa: NtpaMap, ntpa': NtpaMap, trigger: bool, servers: seq<Command>,
                          ntpk: KeyDb, ntpk': KeyDb, trusts: seq<Command>, keysFile: string)
    requires WellKeyed(ntpa) && WellKeyed(ntpa') && AddressInjective(ntpa) && AddressInjective(ntpa')
    requires Represents(s, ntpa) && ServerPlan(ntpa, ntpa', trigger, servers)
    requires s.trusted == {CONTROL_KEY} + ntpk.Keys && CONTROL_KEY !in ntpk
    requires KeyPlan(ntpk, ntpk', trusts) && KeysFileOf(controlPassword, ntpk', keysFile)
    requires IsToken(controlPassword) && forall id :: id in ntpk' ==> IsToken(ntpk'[id].password)
    ensures Represents(Deliver(policy, s, keysFile, servers, trusts), ntpa')
    ensures KeysAgree(Deliver(policy, s, keysFile, servers, trusts), controlPassword, ntpk')
    ensures TrustsLoadedKeys(policy, s.(loaded := ReadKeys(keysFile)), servers + trusts)
  {
    ReadBack(controlPassword, ntpk', keysFile);
    var s0 := s.(loaded := ReadKeys(keysFile));
    StepConverges(policy, s0, ntpa, ntpa', trigger, servers);
    DeliveryTrust(policy, s0, ntpa, ntpa', trigger, servers, ntpk, ntpk', trusts);
  }

  // ---------- while the commands run ----------

  /** The control key is loaded and trusted before, between and after the commands. */
  predicate ControlKeyAlong(policy: Policy, s: State, cs: seq<Command>)
    decreases |cs|
  {
    && CONTROL_KEY in s.trusted && CONTROL_KEY in s.loaded
    && (cs == [] || ControlKeyAlong(policy, Step(policy, s, cs[0]), cs[1..]))
  }

  /** No trusted key is missing, no `server` command conflicts, and the control key stays, at every command. */
  predicate SafeAlong(policy: Policy, s: State, cs: seq<Command>) {
    TrustsLoadedKeys(policy, s, cs) && NoConflict(policy, s, cs) && ControlKeyAlong(policy, s, cs)
  }

  predicate UntrustsControlKey(c: Command) {
    c.Untrust? && CONTROL_KEY in c.ids
  }

  lemma {:induction false} ControlKeyStays(policy: Policy, s: State, cs: seq<Command>)
    requires CONTROL_KEY in s.trusted && CONTROL_KEY in s.loaded
    requires forall i :: 0 <= i < |cs| ==> !UntrustsControlKey(cs[i])
    ensures ControlKeyAlong(policy, s, cs)
    decreases |cs|
  {
    if cs != [] {
      assert !UntrustsControlKey(cs[0]);
      ControlKeyStays(policy, Step(policy, s, cs[0]), cs[1..]);
    }
  }

  /** Trust commands never untrust the control key of a cache that does not hold it, and never conflict. */
  lemma TrustPlanIsMild(policy: Policy, s: State, before: KeyDb, after: KeyDb, cs: seq<Command>)
    requires KeyPlan(before, after, cs) && CONTROL_KEY !in before
    ensures forall i :: 0 <= i < |cs| ==> !UntrustsControlKey(cs[i])
    ensures NoConflict(policy, s, cs)
  {
    assert Unfolded(PlanLayer, 0);
    var untrusted, trusted :|
      Enumerates(untrusted, before.Keys - after.Keys) && Enumerates(trusted, after.Keys) &&
      cs == TrustCommands(untrusted, trusted);
    TrustsConflictWithNothing(policy, s, cs);
  }

  lemma {:induction false} TrustsConflictWithNothing(policy: Policy, s: State, cs: seq<Command>)
    requires forall i :: 0 <= i < |cs| ==> cs[i].Trust? || cs[i].Untrust?
    ensures NoConflict(policy, s, cs)
    decreases |cs|
  {
    if cs != [] {
      TrustsConflictWithNothing(policy, Step(policy, s, cs[0]), cs[1..]);
    }
  }

  lemma PlanIsMild(before: NtpaMap, after: NtpaMap, trigger: bool, cs: seq<Command>)
    requires ServerPlan(before, after, trigger, cs)
    ensures forall i :: 0 <= i < |cs| ==> !UntrustsControlKey(cs[i])
  {
    var rev, del, add := WalksOfPlan(before, after, trigger, cs);
    PlanHasNoTrust(rev, del, add, after);
  }

  /** A whole delivery is safe at every one of its commands. */
  lemma DeliveryIsSafe(policy: Policy, s: State, controlPassword: string,
                       ntpa: NtpaMap, ntpa': NtpaMap, trigger: bool, servers: seq<Command>,
                       ntpk: KeyDb, ntpk': KeyDb, trusts: seq<Command>, keysFile: string)
    requires WellKeyed(ntpa) && WellKeyed(ntpa') && AddressInjective(ntpa) && AddressInjective(ntpa')
    requires Represents(s, ntpa) && ServerPlan(ntpa, ntpa', trigger, servers)
    requires s.trusted == {CONTROL_KEY} + ntpk.Keys && CONTROL_KEY !in ntpk
    requires KeyPlan(ntpk, ntpk', trusts) && KeysFileOf(controlPassword, ntpk', keysFile)
    requires IsToken(controlPassword) && forall id :: id in ntpk' ==> IsToken(ntpk'[id].password)
    ensures SafeAlong(policy, s.(loaded := ReadKeys(keysFile)), servers + trusts)
  {
    ReadBack(controlPassword, ntpk', keysFile);
    var s0 := s.(loaded := ReadKeys(keysFile));
    InjectiveMapsConverge(ntpa, ntpa');
    NoConflictingServer(policy, s0, ntpa, ntpa', trigger, servers);
    TrustPlanIsMild(policy, Exec(policy, s0, servers), ntpk, ntpk', trusts);
    NoConflictAppend(policy, s0, servers, trusts);
    DeliveryTrust(policy, s0, ntpa, ntpa', trigger, servers, ntpk, ntpk', trusts);
    PlanIsMild(ntpa, ntpa', trigger, servers);
    ControlKeyStays(policy, s0, servers + trusts);
  }
}
