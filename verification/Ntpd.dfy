/**
 The NTP daemon as the commands of this component see it: associations known by address
 only, the keys read from the keys file, and the trusted key ids.
 */
module Ntpd {
  import opened Wrappers

  const CONTROL_KEY: int := 65535

  /** What one `server` command says about an association. */
  datatype Params = Params(version: string, key: Option<int>, prefer: bool)

  datatype Command =
    | Unconfig(address: string)
    | Server(address: string, params: Params)
    | Untrust(ids: seq<int>)
    | Trust(ids: seq<int>)

  /** What a `server` command does to an association that is already there. */
  datatype Policy = Overwrite | Ignore

  /** `epoch` tells two incarnations of the association with one address apart. */
  datatype Peer = Peer(params: Params, epoch: nat)

  datatype State = State(
    peers: map<string, Peer>,
    clock: nat,
    loaded: map<int, string>,
    trusted: set<int>)

  /** A daemon just started with its default configuration and keys files. */
  function Started(controlPassword: string): State {
    State(map[], 0, map[CONTROL_KEY := controlPassword], {CONTROL_KEY})
  }

  function IdSet(ids: seq<int>): set<int> {
    set id | id in ids
  }

  function Step(policy: Policy, s: State, c: Command): State {
    match c
    case Unconfig(a) => s.(peers := s.peers - {a})
    case Server(a, params) =>
      if a in s.peers && policy == Ignore then s
      else s.(peers := s.peers[a := Peer(params, s.clock)], clock := s.clock + 1)
    case Untrust(ids) => s.(trusted := s.trusted - IdSet(ids))
    case Trust(ids) => s.(trusted := s.trusted + IdSet(ids))
  }

  function Exec(policy: Policy, s: State, cs: seq<Command>): State
    decreases |cs|
  {
    if cs == [] then s else Exec(policy, Step(policy, s, cs[0]), cs[1..])
  }

  lemma {:induction false} ExecAppend(policy: Policy, s: State, a: seq<Command>, b: seq<Command>)
    ensures Exec(policy, s, a + b) == Exec(policy, Exec(policy, s, a), b)
    decreases |a|
  {
    if a == [] {
      assert a + b == b;
    } else {
      assert (a + b)[1..] == a[1..] + b;
      ExecAppend(policy, Step(policy, s, a[0]), a[1..], b);
    }
  }

  /** Every incarnation was made before now. */
  predicate PastEpochs(s: State) {
    forall a :: a in s.peers ==> s.peers[a].epoch < s.clock
  }

  lemma {:induction false} ExecKeepsPastEpochs(policy: Policy, s: State, cs: seq<Command>)
    requires PastEpochs(s)
    ensures PastEpochs(Exec(policy, s, cs))
    ensures s.clock <= Exec(policy, s, cs).clock
    decreases |cs|
  {
    if cs != [] {
      ExecKeepsPastEpochs(policy, Step(policy, s, cs[0]), cs[1..]);
    }
  }

  /** After any commands an association is a new incarnation or the one from before. */
  lemma {:induction false} NewOrSame(policy: Policy, s: State, cs: seq<Command>, a: string)
    requires a in Exec(policy, s, cs).peers
    ensures s.clock <= Exec(policy, s, cs).peers[a].epoch
         || (a in s.peers && Exec(policy, s, cs).peers[a] == s.peers[a])
    decreases |cs|
  {
    if cs != [] {
      NewOrSame(policy, Step(policy, s, cs[0]), cs[1..], a);
    }
  }

  /** A `server` command that would meet other parameters at its address. */
  predicate Conflicts(s: State, c: Command) {
    c.Server? && c.address in s.peers && s.peers[c.address].params != c.params
  }

  /** No command of the list conflicts in the state in which it arrives. */
  predicate NoConflict(policy: Policy, s: State, cs: seq<Command>)
    decreases |cs|
  {
    cs == [] || (!Conflicts(s, cs[0]) && NoConflict(policy, Step(policy, s, cs[0]), cs[1..]))
  }

  lemma {:induction false} NoConflictAppend(policy: Policy, s: State, a: seq<Command>, b: seq<Command>)
    ensures NoConflict(policy, s, a + b)
       <==> NoConflict(policy, s, a) && NoConflict(policy, Exec(policy, s, a), b)
    decreases |a|
  {
    if a == [] {
      assert a + b == b;
    } else {
      assert (a + b)[1..] == a[1..] + b;
      NoConflictAppend(policy, Step(policy, s, a[0]), a[1..], b);
    }
  }

  /** The parameters in force, address by address. */
  function ParamsInForce(s: State): map<string, Params> {
    map a | a in s.peers :: s.peers[a].params
  }

  /** Two states that only incarnations tell apart. */
  predicate SameService(s: State, t: State) {
    ParamsInForce(s) == ParamsInForce(t) && s.loaded == t.loaded && s.trusted == t.trusted
  }

  lemma SameServiceStep(s: State, t: State, c: Command)
    requires SameService(s, t) && !Conflicts(s, c)
    ensures SameService(Step(Overwrite, s, c), Step(Ignore, t, c))
  {
    var s', t' := Step(Overwrite, s, c), Step(Ignore, t, c);
    assert forall a :: a in s.peers <==> a in ParamsInForce(s);
    assert forall a :: a in t.peers <==> a in ParamsInForce(t);
    assert forall a :: a in s.peers ==> ParamsInForce(s)[a] == ParamsInForce(t)[a];
    assert forall a :: a in s'.peers <==> a in t'.peers;
  }

  /** Without conflicts the duplicate policy makes no difference. */
  lemma {:induction false} PolicyIndependent(s: State, t: State, cs: seq<Command>)
    requires SameService(s, t) && NoConflict(Overwrite, s, cs)
    ensures SameService(Exec(Overwrite, s, cs), Exec(Ignore, t, cs))
    decreases |cs|
  {
    if cs != [] {
      SameServiceStep(s, t, cs[0]);
      PolicyIndependent(Step(Overwrite, s, cs[0]), Step(Ignore, t, cs[0]), cs[1..]);
    }
  }
}
