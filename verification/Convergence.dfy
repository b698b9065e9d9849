/** What executing a plan does to the NTP daemon. */
module Convergence {
  import opened Wrappers
  import opened Enumerations
  import opened Ntpd
  import opened Plans

  function Addresses(ks: set<NtpaKey>): set<string> {
    set k | k in ks :: k.1
  }

  /** The daemon runs exactly the associations of the map, with the map's parameters. */
  predicate Represents(s: State, m: NtpaMap) {
    && s.peers.Keys == Addresses(m.Keys)
    && forall k :: k in m ==> s.peers[k.1].params == ParamsOf(m[k])
  }

  /** No two entries of one address ask for different parameters. */
  predicate Consistent(m: NtpaMap) {
    forall j, k :: j in m && k in m && j.1 == k.1 ==> ParamsOf(m[j]) == ParamsOf(m[k])
  }

  /** No two entries share an address. */
  predicate AddressInjective(m: NtpaMap) {
    forall j, k :: j in m && k in m && j.1 == k.1 ==> j == k
  }

  /** Some entry's address is unconfigured for another entry and never configured again. */
  predicate LosesAddress(before: NtpaMap, after: NtpaMap) {
    exists k :: k in after && k.1 in Addresses(Deleted(before, after)) && k.1 !in Addresses(Added(before, after))
  }

  // ---------- one block of commands at a time ----------

  function AddressesOf(ks: seq<NtpaKey>): set<string> {
    set k | k in ks :: k.1
  }

  lemma AddressesOfWalk(ks: seq<NtpaKey>, xs: set<NtpaKey>)
    requires Enumerates(ks, xs)
    ensures AddressesOf(ks) == Addresses(xs)
  {
  }

  lemma {:induction false} DeleteEffect(policy: Policy, s: State, ks: seq<NtpaKey>)
    ensures Exec(policy, s, DeleteCommands(ks)) == s.(peers := s.peers - AddressesOf(ks))
    ensures NoConflict(policy, s, DeleteCommands(ks))
    decreases |ks|
  {
    if ks == [] {
      assert s.peers - {} == s.peers;
    } else {
      var t := s.(peers := s.peers - {ks[0].1});
      assert DeleteCommands(ks)[1..] == DeleteCommands(ks[1..]);
      DeleteEffect(policy, t, ks[1..]);
      assert t.peers - AddressesOf(ks[1..]) == s.peers - AddressesOf(ks);
    }
  }

  /** The effect of a block on associations: `touched` addresses are present, the others are as before. */
  predicate Configures(s: State, t: State, touched: set<string>) {
    && t.peers.Keys == s.peers.Keys + touched
    && (forall a :: a in s.peers && a !in touched ==> t.peers[a] == s.peers[a])
    && t.loaded == s.loaded && t.trusted == s.trusted && s.clock <= t.clock
  }

  /** Where the map already holds, its own commands neither conflict nor change parameters. */
  predicate Agrees(s: State, ks: seq<NtpaKey>, m: NtpaMap)
    requires forall k :: k in ks ==> k in m
  {
    forall k :: k in ks && k.1 in s.peers ==> s.peers[k.1].params == ParamsOf(m[k])
  }

  lemma AddEffect(policy: Policy, s: State, ks: seq<NtpaKey>, m: NtpaMap)
    requires WellKeyed(m) && forall k :: k in ks ==> k in m
    ensures Configures(s, Exec(policy, s, AddCommands(ks, m)), AddressesOf(ks))
    ensures Consistent(m) && Agrees(s, ks, m) ==>
      && NoConflict(policy, s, AddCommands(ks, m))
      && forall k :: k in ks ==> Exec(policy, s, AddCommands(ks, m)).peers[k.1].params == ParamsOf(m[k])
  {
    AddConfigures(policy, s, ks, m);
    if Consistent(m) && Agrees(s, ks, m) {
      AddServes(policy, s, ks, m);
    }
  }

  lemma {:induction false} AddConfigures(policy: Policy, s: State, ks: seq<NtpaKey>, m: NtpaMap)
    requires WellKeyed(m) && forall k :: k in ks ==> k in m
    ensures Configures(s, Exec(policy, s, AddCommands(ks, m)), AddressesOf(ks))
    decreases |ks|
  {
    if ks != [] {
      var t := Step(policy, s, ServerCommand(m[ks[0]]));
      assert AddCommands(ks, m)[1..] == AddCommands(ks[1..], m);
      AddConfigures(policy, t, ks[1..], m);
    }
  }

  /** Over a consistent map that the state agrees with, no addition conflicts and all take effect. */
  lemma {:induction false} AddServes(policy: Policy, s: State, ks: seq<NtpaKey>, m: NtpaMap)
    requires WellKeyed(m) && (forall k :: k in ks ==> k in m) && Consistent(m) && Agrees(s, ks, m)
    ensures NoConflict(policy, s, AddCommands(ks, m))
    ensures forall k :: k in ks ==>
      && k.1 in Exec(policy, s, AddCommands(ks, m)).peers
      && Exec(policy, s, AddCommands(ks, m)).peers[k.1].params == ParamsOf(m[k])
    decreases |ks|
  {
    if ks != [] {
      var t := Step(policy, s, ServerCommand(m[ks[0]]));
      assert AddCommands(ks, m)[1..] == AddCommands(ks[1..], m);
      assert Agrees(t, ks[1..], m);
      AddServes(policy, t, ks[1..], m);
      assert forall k :: k in ks <==> k == ks[0] || k in ks[1..];
      AddKeepsParams(policy, t, ks[1..], m, ks[0].1);
    }
  }

  /** Adding more entries of a consistent map leaves parameters alone that already agree. */
  lemma {:induction false} AddKeepsParams(policy: Policy, s: State, ks: seq<NtpaKey>, m: NtpaMap, a: string)
    requires WellKeyed(m) && forall k :: k in ks ==> k in m
    requires Agrees(s, ks, m) && a in s.peers
    requires Consistent(m)
    ensures a in Exec(policy, s, AddCommands(ks, m)).peers
    ensures Exec(policy, s, AddCommands(ks, m)).peers[a].params == s.peers[a].params
    decreases |ks|
  {
    if ks != [] {
      var t := Step(policy, s, ServerCommand(m[ks[0]]));
      assert AddCommands(ks, m)[1..] == AddCommands(ks[1..], m);
      AddKeepsParams(policy, t, ks[1..], m, a);
    }
  }

  /** Every revised address ends in an incarnation made by the block itself. */
  predicate Renewed(s: State, t: State, touched: set<string>) {
    forall a :: a in touched ==> a in t.peers && s.clock <= t.peers[a].epoch
  }

  lemma ReviseEffect(policy: Policy, s: State, ks: seq<NtpaKey>, m: NtpaMap)
    requires WellKeyed(m) && forall k :: k in ks ==> k in m
    ensures Configures(s, Exec(policy, s, ReviseCommands(ks, m)), AddressesOf(ks))
    ensures Renewed(s, Exec(policy, s, ReviseCommands(ks, m)), AddressesOf(ks))
    ensures NoConflict(policy, s, ReviseCommands(ks, m))
    ensures Consistent(m) ==>
      forall k :: k in ks ==> Exec(policy, s, ReviseCommands(ks, m)).peers[k.1].params == ParamsOf(m[k])
  {
    ReviseRenews(policy, s, ks, m);
    if Consistent(m) {
      ReviseServes(policy, s, ks, m);
    }
  }

  /** The first revised association, then the others. */
  lemma ReviseFirst(policy: Policy, s: State, ks: seq<NtpaKey>, m: NtpaMap) returns (t: State)
    requires WellKeyed(m) && ks != [] && forall k :: k in ks ==> k in m
    ensures t == s.(peers := s.peers[ks[0].1 := Peer(ParamsOf(m[ks[0]]), s.clock)], clock := s.clock + 1)
    ensures Exec(policy, s, ReviseCommands(ks, m)) == Exec(policy, t, ReviseCommands(ks[1..], m))
    ensures NoConflict(policy, s, ReviseCommands(ks, m)) == NoConflict(policy, t, ReviseCommands(ks[1..], m))
  {
    var cs := ReviseCommands(ks, m);
    var gone := Step(policy, s, cs[0]);
    t := Step(policy, gone, cs[1]);
    assert cs[1..][0] == cs[1] && cs[1..][1..] == ReviseCommands(ks[1..], m);
    assert Exec(policy, s, cs) == Exec(policy, gone, cs[1..]);
    assert (s.peers - {ks[0].1})[ks[0].1 := Peer(ParamsOf(m[ks[0]]), s.clock)] == s.peers[ks[0].1 := Peer(ParamsOf(m[ks[0]]), s.clock)];
  }

  lemma {:induction false} ReviseRenews(policy: Policy, s: State, ks: seq<NtpaKey>, m: NtpaMap)
    requires WellKeyed(m) && forall k :: k in ks ==> k in m
    ensures Configures(s, Exec(policy, s, ReviseCommands(ks, m)), AddressesOf(ks))
    ensures Renewed(s, Exec(policy, s, ReviseCommands(ks, m)), AddressesOf(ks))
    ensures NoConflict(policy, s, ReviseCommands(ks, m))
    decreases |ks|
  {
    if ks != [] {
      var t := ReviseFirst(policy, s, ks, m);
      ReviseRenews(policy, t, ks[1..], m);
    }
  }

  lemma {:induction false} ReviseServes(policy: Policy, s: State, ks: seq<NtpaKey>, m: NtpaMap)
    requires WellKeyed(m) && (forall k :: k in ks ==> k in m) && Consistent(m)
    ensures forall k :: k in ks ==>
      && k.1 in Exec(policy, s, ReviseCommands(ks, m)).peers
      && Exec(policy, s, ReviseCommands(ks, m)).peers[k.1].params == ParamsOf(m[k])
    decreases |ks|
  {
    if ks != [] {
      var t := ReviseFirst(policy, s, ks, m);
      ReviseRenews(policy, t, ks[1..], m);
      ReviseServes(policy, t, ks[1..], m);
      assert forall k :: k in ks <==> k == ks[0] || k in ks[1..];
      if ks[0].1 in AddressesOf(ks[1..]) {
        var k :| k in ks[1..] && k.1 == ks[0].1;
        assert ParamsOf(m[k]) == ParamsOf(m[ks[0]]);
      }
    }
  }

  // ---------- a whole plan ----------

  /** The three blocks of a plan, with the states between them. */
  lemma PlanBlocks(policy: Policy, s: State, rev: seq<NtpaKey>, del: seq<NtpaKey>, add: seq<NtpaKey>, after: NtpaMap)
    returns (s1: State, s2: State)
    requires forall k :: k in rev ==> k in after
    requires forall k :: k in add ==> k in after
    ensures s1 == Exec(policy, s, ReviseCommands(rev, after))
    ensures s2 == Exec(policy, s1, DeleteCommands(del))
    ensures Exec(policy, s, PlanOf(rev, del, add, after)) == Exec(policy, s2, AddCommands(add, after))
    ensures NoConflict(policy, s, PlanOf(rev, del, add, after)) <==>
      NoConflict(policy, s, ReviseCommands(rev, after)) && NoConflict(policy, s1, DeleteCommands(del)) &&
      NoConflict(policy, s2, AddCommands(add, after))
  {
    var r, d, a := ReviseCommands(rev, after), DeleteCommands(del), AddCommands(add, after);
    s1 := Exec(policy, s, r);
    s2 := Exec(policy, s1, d);
    ExecAppend(policy, s, r + d, a);
    ExecAppend(policy, s, r, d);
    NoConflictAppend(policy, s, r + d, a);
    NoConflictAppend(policy, s, r, d);
  }

  /** The addresses served after a plan, whatever the maps are. */
  lemma PlanAddresses(policy: Policy, s: State, before: NtpaMap, after: NtpaMap, trigger: bool,
                      rev: seq<NtpaKey>, del: seq<NtpaKey>, add: seq<NtpaKey>)
    requires WellKeyed(after) && Walks(before, after, trigger, rev, del, add)
    ensures Exec(policy, s, PlanOf(rev, del, add, after)).peers.Keys ==
      (s.peers.Keys + AddressesOf(rev)) - Addresses(Deleted(before, after)) + Addresses(Added(before, after))
    ensures Exec(policy, s, PlanOf(rev, del, add, after)).loaded == s.loaded
    ensures Exec(policy, s, PlanOf(rev, del, add, after)).trusted == s.trusted
  {
    var s1, s2 := PlanBlocks(policy, s, rev, del, add, after);
    ReviseEffect(policy, s, rev, after);
    DeleteEffect(policy, s1, del);
    AddEffect(policy, s2, add, after);
    AddressesOfWalk(del, Deleted(before, after));
    AddressesOfWalk(add, Added(before, after));
  }

  /** What the add block meets already agrees with the new map. */
  lemma AddBlockAgrees(s: State, s1: State, s2: State, before: NtpaMap, after: NtpaMap, trigger: bool,
                       rev: seq<NtpaKey>, del: seq<NtpaKey>, add: seq<NtpaKey>)
    requires WellKeyed(after) && Consistent(after) && Represents(s, before)
    requires Walks(before, after, trigger, rev, del, add)
    requires Configures(s, s1, AddressesOf(rev))
    requires forall k :: k in rev ==> k.1 in s1.peers && s1.peers[k.1].params == ParamsOf(after[k])
    requires s2 == s1.(peers := s1.peers - AddressesOf(del))
    ensures forall k :: k in after && k.1 in s2.peers ==> s2.peers[k.1].params == ParamsOf(after[k])
  {
    forall k | k in after && k.1 in s2.peers
      ensures s2.peers[k.1].params == ParamsOf(after[k])
    {
      if k.1 in AddressesOf(rev) {
        var j :| j in rev && j.1 == k.1;
        assert ParamsOf(after[j]) == ParamsOf(after[k]);
      } else {
        assert k.1 in s.peers;
        var j :| j in before && j.1 == k.1;
        assert j !in del;
        assert Unchanged(before, after, j);
        assert ParamsOf(after[j]) == ParamsOf(after[k]);
      }
    }
  }

  /**
   During a step no `server` command meets an association with other parameters, in any
   intermediate state, for every walk order and both duplicate policies.
   */
  lemma NoConflictingServer(policy: Policy, s: State, before: NtpaMap, after: NtpaMap, trigger: bool, cs: seq<Command>)
    requires WellKeyed(after) && Consistent(after) && Represents(s, before)
    requires ServerPlan(before, after, trigger, cs)
    ensures NoConflict(policy, s, cs)
  {
    var rev, del, add := WalksOfPlan(before, after, trigger, cs);
    var s1, s2 := PlanBlocks(policy, s, rev, del, add, after);
    ReviseEffect(policy, s, rev, after);
    DeleteEffect(policy, s1, del);
    AddressesOfWalk(del, Deleted(before, after));
    AddBlockAgrees(s, s1, s2, before, after, trigger, rev, del, add);
    AddEffect(policy, s2, add, after);
  }

  /** A step leaves the same service whichever way the NTP daemon treats a repeated `server` command. */
  lemma StepIsPolicyIndependent(s: State, before: NtpaMap, after: NtpaMap, trigger: bool, cs: seq<Command>)
    requires WellKeyed(after) && Consistent(after) && Represents(s, before)
    requires ServerPlan(before, after, trigger, cs)
    ensures SameService(Exec(Overwrite, s, cs), Exec(Ignore, s, cs))
  {
    NoConflictingServer(Overwrite, s, before, after, trigger, cs);
    PolicyIndependent(s, s, cs);
  }

  /**
   Convergence of one step, exactly: starting from a daemon that runs the cached map, every
   plan leaves it running the new map if and only if the new map asks for one set of
   parameters per address and no address is unconfigured for one entry while another,
   unchanged entry needs it.
   */
  lemma StepConvergesExactly(policy: Policy, s: State, before: NtpaMap, after: NtpaMap, trigger: bool, cs: seq<Command>)
    requires WellKeyed(before) && WellKeyed(after) && Represents(s, before)
    requires ServerPlan(before, after, trigger, cs)
    ensures Represents(Exec(policy, s, cs), after) <==> Consistent(after) && !LosesAddress(before, after)
  {
    var rev, del, add := WalksOfPlan(before, after, trigger, cs);
    var t := Exec(policy, s, cs);
    PlanAddresses(policy, s, before, after, trigger, rev, del, add);
    if LosesAddress(before, after) {
      var k :| k in after && k.1 in Addresses(Deleted(before, after)) && k.1 !in Addresses(Added(before, after));
      assert k.1 !in t.peers;
      assert !Represents(t, after);
    } else if Consistent(after) {
      PlanServes(policy, s, before, after, trigger, rev, del, add);
    } else {
      var j, k :| j in after && k in after && j.1 == k.1 && ParamsOf(after[j]) != ParamsOf(after[k]);
      assert !Represents(t, after);
    }
  }

  lemma PlanServes(policy: Policy, s: State, before: NtpaMap, after: NtpaMap, trigger: bool,
                   rev: seq<NtpaKey>, del: seq<NtpaKey>, add: seq<NtpaKey>)
    requires WellKeyed(before) && WellKeyed(after) && Represents(s, before)
    requires Walks(before, after, trigger, rev, del, add)
    requires Consistent(after) && !LosesAddress(before, after)
    ensures Represents(Exec(policy, s, PlanOf(rev, del, add, after)), after)
  {
    var t := Exec(policy, s, PlanOf(rev, del, add, after));
    var s1, s2 := PlanBlocks(policy, s, rev, del, add, after);
    ReviseEffect(policy, s, rev, after);
    DeleteEffect(policy, s1, del);
    AddressesOfWalk(del, Deleted(before, after));
    AddressesOfWalk(add, Added(before, after));
    AddBlockAgrees(s, s1, s2, before, after, trigger, rev, del, add);
    AddEffect(policy, s2, add, after);
    PlanAddresses(policy, s, before, after, trigger, rev, del, add);
    ServedAddresses(before, after, rev);
    forall k | k in after
      ensures t.peers[k.1].params == ParamsOf(after[k])
    {
      if k.1 in AddressesOf(add) {
        var j :| j in add && j.1 == k.1;
        assert ParamsOf(after[j]) == ParamsOf(after[k]);
      } else {
        assert k.1 in s2.peers && t.peers[k.1] == s2.peers[k.1];
      }
    }
  }

  /** Set algebra of a step: kept, deleted and added addresses make up the new map's addresses. */
  lemma ServedAddresses(before: NtpaMap, after: NtpaMap, rev: seq<NtpaKey>)
    requires forall k :: k in rev ==> k in after
    requires !LosesAddress(before, after)
    ensures (Addresses(before.Keys) + AddressesOf(rev)) - Addresses(Deleted(before, after)) + Addresses(Added(before, after))
      == Addresses(after.Keys)
  {
    var served := (Addresses(before.Keys) + AddressesOf(rev)) - Addresses(Deleted(before, after)) + Addresses(Added(before, after));
    forall a | a in served
      ensures a in Addresses(after.Keys)
    {
      if a !in Addresses(Added(before, after)) && a in Addresses(before.Keys) {
        var k :| k in before && k.1 == a;
        assert k !in Deleted(before, after);
      }
    }
    forall k | k in after
      ensures k.1 in served
    {
      if k.1 !in Addresses(Added(before, after)) {
        assert k !in Added(before, after);
        assert k.1 in Addresses(before.Keys);
      }
    }
  }

  /** Maps that use an address once meet the condition. */
  lemma InjectiveMapsConverge(before: NtpaMap, after: NtpaMap)
    requires AddressInjective(before) && AddressInjective(after)
    ensures Consistent(after) && !LosesAddress(before, after)
  {
  }

  /** One step from a faithful daemon, over address-injective maps. */
  lemma StepConverges(policy: Policy, s: State, before: NtpaMap, after: NtpaMap, trigger: bool, cs: seq<Command>)
    requires WellKeyed(before) && WellKeyed(after) && Represents(s, before)
    requires AddressInjective(before) && AddressInjective(after)
    requires ServerPlan(before, after, trigger, cs)
    ensures Represents(Exec(policy, s, cs), after)
    ensures Exec(policy, s, cs).loaded == s.loaded && Exec(policy, s, cs).trusted == s.trusted
  {
    InjectiveMapsConverge(before, after);
    StepConvergesExactly(policy, s, before, after, trigger, cs);
    var rev, del, add := WalksOfPlan(before, after, trigger, cs);
    PlanAddresses(policy, s, before, after, trigger, rev, del, add);
  }

  /**
   Why an address may be used once only: with one address in two vrfs, removing one entry
   silences the other entry, although that one has not changed.
   */
  lemma SharedAddressIsLost(policy: Policy, s: State, a: string, v: string, w: string, version: string, cs: seq<Command>)
    requires v != w
    requires Represents(s, SharedBefore(a, v, w, version))
    requires ServerPlan(SharedBefore(a, v, w, version), SharedAfter(a, v, version), false, cs)
    ensures !Represents(Exec(policy, s, cs), SharedAfter(a, v, version))
  {
    var before, after := SharedBefore(a, v, w, version), SharedAfter(a, v, version);
    assert (w, a) in Deleted(before, after);
    assert Added(before, after) == {};
    assert (v, a) in after;
    StepConvergesExactly(policy, s, before, after, false, cs);
  }

  function SharedAfter(a: string, v: string, version: string): NtpaMap {
    map[(v, a) := NtpaRecord(a, v, None, "-", DEFAULT_PREFER, version)]
  }

  function SharedBefore(a: string, v: string, w: string, version: string): NtpaMap {
    SharedAfter(a, v, version)[(w, a) := NtpaRecord(a, w, None, "-", DEFAULT_PREFER, version)]
  }

  // ---------- churn ----------

  /** The address a server command names. */
  predicate Names(c: Command, a: string) {
    (c.Unconfig? && c.address == a) || (c.Server? && c.address == a)
  }

  lemma {:induction false} DeleteNames(ks: seq<NtpaKey>)
    ensures |DeleteCommands(ks)| == |ks|
    ensures forall c, a :: c in DeleteCommands(ks) && Names(c, a) ==> a in AddressesOf(ks)
  {
    if ks != [] {
      DeleteNames(ks[1..]);
      assert forall c :: c in DeleteCommands(ks) <==> c == Unconfig(ks[0].1) || c in DeleteCommands(ks[1..]);
    }
  }

  lemma {:induction false} AddNames(ks: seq<NtpaKey>, m: NtpaMap)
    requires WellKeyed(m) && forall k :: k in ks ==> k in m
    ensures |AddCommands(ks, m)| == |ks|
    ensures forall c, a :: c in AddCommands(ks, m) && Names(c, a) ==> a in AddressesOf(ks)
  {
    if ks != [] {
      AddNames(ks[1..], m);
      assert forall c :: c in AddCommands(ks, m) <==> c == AddCommands(ks, m)[0] || c in AddCommands(ks[1..], m);
    }
  }

  lemma {:induction false} ReviseLength(ks: seq<NtpaKey>, m: NtpaMap)
    requires forall k :: k in ks ==> k in m
    ensures |ReviseCommands(ks, m)| == 2 * |ks|
  {
    if ks != [] {
      ReviseLength(ks[1..], m);
    }
  }

  function Removed(before: NtpaMap, after: NtpaMap): set<NtpaKey> {
    before.Keys - after.Keys
  }

  function Inserted(before: NtpaMap, after: NtpaMap): set<NtpaKey> {
    after.Keys - before.Keys
  }

  function Changed(before: NtpaMap, after: NtpaMap): set<NtpaKey> {
    set k | k in before && k in after && before[k] != after[k]
  }

  /**
   How many commands a step emits: one per removed, one per inserted and two per changed
   association; a change of the authentication flag adds two per keyed association.
   */
  lemma CommandCount(before: NtpaMap, after: NtpaMap, trigger: bool, cs: seq<Command>)
    requires WellKeyed(after) && ServerPlan(before, after, trigger, cs)
    ensures |cs| == |Removed(before, after)| + |Inserted(before, after)| + 2 * |Changed(before, after)|
                    + (if trigger then 2 * |Keyed(after)| else 0)
  {
    var rev, del, add := WalksOfPlan(before, after, trigger, cs);
    ReviseLength(rev, after);
    DeleteNames(del);
    AddNames(add, after);
    EnumerationLength(rev, if trigger then Keyed(after) else {});
    EnumerationLength(del, Deleted(before, after));
    EnumerationLength(add, Added(before, after));
    DeletedCount(before, after);
  }

  lemma DeletedCount(before: NtpaMap, after: NtpaMap)
    ensures |Deleted(before, after)| == |Removed(before, after)| + |Changed(before, after)|
    ensures |Added(before, after)| == |Inserted(before, after)| + |Changed(before, after)|
  {
    DeletedParts(before, after);
  }

  lemma DeletedParts(before: NtpaMap, after: NtpaMap)
    ensures Deleted(before, after) == Removed(before, after) + Changed(before, after)
    ensures Added(before, after) == Inserted(before, after) + Changed(before, after)
    ensures Removed(before, after) !! Changed(before, after) && Inserted(before, after) !! Changed(before, after)
  {
  }

  /** Without a flag change, no command names the address of an unchanged association. */
  lemma UnchangedIsNotNamed(before: NtpaMap, after: NtpaMap, cs: seq<Command>, k: NtpaKey, c: Command)
    requires WellKeyed(after) && AddressInjective(before) && AddressInjective(after)
    requires ServerPlan(before, after, false, cs) && Unchanged(before, after, k) && c in cs
    ensures !Names(c, k.1)
  {
    var rev, del, add := WalksOfPlan(before, after, false, cs);
    EmptyEnumeration(rev);
    assert cs == DeleteCommands(del) + AddCommands(add, after);
    DeleteNames(del);
    AddNames(add, after);
    AddressesOfWalk(del, Deleted(before, after));
    AddressesOfWalk(add, Added(before, after));
  }

  /** Reconciling a map with itself sends nothing. */
  lemma SecondStepIsSilent(m: NtpaMap, cs: seq<Command>)
    requires ServerPlan(m, m, false, cs)
    ensures cs == []
  {
    var rev, del, add := WalksOfPlan(m, m, false, cs);
    assert Deleted(m, m) == {} && Added(m, m) == {};
    EmptyEnumeration(rev);
    EmptyEnumeration(del);
    EmptyEnumeration(add);
  }

  /**
   Which associations survive a step as they are: exactly the unchanged ones, except that a
   change of the authentication flag re-establishes those with a key.  All others are a new
   incarnation made in this step.
   */
  lemma ReestablishedExactly(policy: Policy, s: State, before: NtpaMap, after: NtpaMap, trigger: bool, cs: seq<Command>, k: NtpaKey)
    requires WellKeyed(before) && WellKeyed(after) && Represents(s, before) && PastEpochs(s)
    requires AddressInjective(before) && AddressInjective(after)
    requires ServerPlan(before, after, trigger, cs) && k in after
    ensures k.1 in Exec(policy, s, cs).peers
    ensures if Unchanged(before, after, k) && !(trigger && after[k].keyId.Some?)
            then k.1 in s.peers && Exec(policy, s, cs).peers[k.1] == s.peers[k.1]
            else s.clock <= Exec(policy, s, cs).peers[k.1].epoch
  {
    var rev, del, add := WalksOfPlan(before, after, trigger, cs);
    var a := k.1;
    StepConverges(policy, s, before, after, trigger, cs);
    assert a in Exec(policy, s, cs).peers;
    var s1, s2 := PlanBlocks(policy, s, rev, del, add, after);
    ReviseEffect(policy, s, rev, after);
    DeleteEffect(policy, s1, del);
    UntouchedAddresses(before, after, trigger, rev, del, add, k);
    if Unchanged(before, after, k) && !(trigger && after[k].keyId.Some?) {
      AddEffect(policy, s2, add, after);
    } else {
      NewOrSame(policy, s2, AddCommands(add, after), a);
    }
  }

  /** Which of the three walks visit the address of an entry of the new map. */
  lemma UntouchedAddresses(before: NtpaMap, after: NtpaMap, trigger: bool,
                           rev: seq<NtpaKey>, del: seq<NtpaKey>, add: seq<NtpaKey>, k: NtpaKey)
    requires AddressInjective(before) && AddressInjective(after)
    requires Walks(before, after, trigger, rev, del, add) && k in after
    ensures k.1 in AddressesOf(rev) <==> trigger && after[k].keyId.Some?
    ensures Unchanged(before, after, k) ==> k.1 !in AddressesOf(del) && k.1 !in AddressesOf(add)
  {
    assert k in Keyed(after) <==> after[k].keyId.Some?;
    if k.1 in AddressesOf(rev) {
      var j :| j in rev && j.1 == k.1;
      assert j == k;
    }
  }
}
