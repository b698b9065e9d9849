/**
 What one reconcile step sends to the NTP daemon, as a relation between the cached maps,
 the new maps and the command list.  Every order in which the maps may be walked is a plan.
 */
module Plans {
  import opened Wrappers
  import opened Enumerations
  import opened Ntpd
  import opened CommandText
  import opened Unfolding

  // ---------- associations ----------

  /** The pair (vrf, address) that keys the association map. */
  type NtpaKey = (string, string)

  datatype NtpaRecord = NtpaRecord(
    address: string,
    vrf: string,
    keyId: Option<int>,
    refClockId: string,
    prefer: string,
    version: string)

  type NtpaMap = map<NtpaKey, NtpaRecord>

  const DEFAULT_PREFER := "false"

  /** Every record carries the vrf and the address it is filed under. */
  predicate WellKeyed(m: NtpaMap) {
    forall k :: k in m ==> m[k].vrf == k.0 && m[k].address == k.1
  }

  function ParamsOf(r: NtpaRecord): Params {
    Params(r.version, r.keyId, r.prefer != DEFAULT_PREFER)
  }

  function ServerCommand(r: NtpaRecord): Command {
    Server(r.address, ParamsOf(r))
  }

  predicate Unchanged(before: NtpaMap, after: NtpaMap, k: NtpaKey) {
    k in before && k in after && before[k] == after[k]
  }

  function Deleted(before: NtpaMap, after: NtpaMap): set<NtpaKey> {
    set k | k in before && !Unchanged(before, after, k)
  }

  function Added(before: NtpaMap, after: NtpaMap): set<NtpaKey> {
    set k | k in after && !Unchanged(before, after, k)
  }

  function Keyed(m: NtpaMap): set<NtpaKey> {
    set k | k in m && m[k].keyId.Some?
  }

  function DeleteCommands(ks: seq<NtpaKey>): seq<Command> {
    if ks == [] then [] else [Unconfig(ks[0].1)] + DeleteCommands(ks[1..])
  }

  function AddCommands(ks: seq<NtpaKey>, m: NtpaMap): seq<Command>
    requires forall k :: k in ks ==> k in m
  {
    if ks == [] then [] else [ServerCommand(m[ks[0]])] + AddCommands(ks[1..], m)
  }

  function ReviseCommands(ks: seq<NtpaKey>, m: NtpaMap): seq<Command>
    requires forall k :: k in ks ==> k in m
  {
    if ks == [] then []
    else [Unconfig(m[ks[0]].address), ServerCommand(m[ks[0]])] + ReviseCommands(ks[1..], m)
  }

  function PlanOf(rev: seq<NtpaKey>, del: seq<NtpaKey>, add: seq<NtpaKey>, after: NtpaMap): seq<Command>
    requires forall k :: k in rev ==> k in after
    requires forall k :: k in add ==> k in after
  {
    ReviseCommands(rev, after) + DeleteCommands(del) + AddCommands(add, after)
  }

  /** `rev`, `del` and `add` are walks over the associations to revise, to delete and to add. */
  ghost predicate Walks(before: NtpaMap, after: NtpaMap, trigger: bool,
                        rev: seq<NtpaKey>, del: seq<NtpaKey>, add: seq<NtpaKey>) {
    && Enumerates(rev, if trigger then Keyed(after) else {})
    && Enumerates(del, Deleted(before, after))
    && Enumerates(add, Added(before, after))
  }

  /** `cs` is a server command list that a reconcile step may emit. */
  ghost predicate ServerPlan(before: NtpaMap, after: NtpaMap, trigger: bool, cs: seq<Command>) {
    forall k {:trigger Unfolded(PlanLayer, k)} :: Unfolded(PlanLayer, k) ==>
      exists rev, del, add :: Walks(before, after, trigger, rev, del, add) && cs == PlanOf(rev, del, add, after)
  }

  lemma PlanOfWalks(before: NtpaMap, after: NtpaMap, trigger: bool, rev: seq<NtpaKey>, del: seq<NtpaKey>, add: seq<NtpaKey>)
    requires Walks(before, after, trigger, rev, del, add)
    ensures ServerPlan(before, after, trigger, PlanOf(rev, del, add, after))
  {
  }

  lemma WalksOfPlan(before: NtpaMap, after: NtpaMap, trigger: bool, cs: seq<Command>)
    returns (rev: seq<NtpaKey>, del: seq<NtpaKey>, add: seq<NtpaKey>)
    requires ServerPlan(before, after, trigger, cs)
    ensures Walks(before, after, trigger, rev, del, add) && cs == PlanOf(rev, del, add, after)
  {
    assert Unfolded(PlanLayer, 0);
    rev, del, add :| Walks(before, after, trigger, rev, del, add) && cs == PlanOf(rev, del, add, after);
  }

  // ---------- keys ----------

  function TrustCommands(untrusted: seq<int>, trusted: seq<int>): seq<Command> {
    (if untrusted == [] then [] else [Untrust(untrusted)]) +
    (if trusted == [] then [] else [Trust(trusted)])
  }

  /** `cs` is a trust command list that a reconcile step may emit. */
  ghost predicate KeyPlan(before: KeyDb, after: KeyDb, cs: seq<Command>) {
    forall k {:trigger Unfolded(PlanLayer, k)} :: Unfolded(PlanLayer, k) ==>
      exists untrusted, trusted ::
        Enumerates(untrusted, before.Keys - after.Keys) && Enumerates(trusted, after.Keys) &&
        cs == TrustCommands(untrusted, trusted)
  }

  /** `content` is a keys file that lists the control key and the keys of `db`. */
  ghost predicate KeysFileOf(controlPassword: string, db: KeyDb, content: string) {
    forall k {:trigger Unfolded(PlanLayer, k)} :: Unfolded(PlanLayer, k) ==>
      exists ids :: Enumerates(ids, db.Keys) && content == KeysFile(controlPassword, ids, db)
  }
}
