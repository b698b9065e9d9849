/**
 Database rows: rows have identities, associations refer to key rows by identity, attributes
 are string maps.  `Shows` ties the rows to the state of the transaction machine.
 */
module TableRows {
  import opened Wrappers
  import opened Text
  import opened Projection
  import opened Cli
  import opened Unfolding

  type Uuid = nat

  datatype AssocRecord = AssocRecord(
    address: string,
    vrf: string,
    key: Option<Uuid>,
    attributes: map<Attr, string>,
    status: map<string, string>)

  const TRUE_STR := "true"
  const FALSE_STR := "false"
  const DEFAULT_STR := "-"

  /** The columns of `association_status`, all "-" in a new row. */
  const NEW_STATUS: map<string, string> := map[
    "remote_peer_address" := DEFAULT_STR, "remote_peer_ref_id" := DEFAULT_STR, "stratum" := DEFAULT_STR,
    "peer_type" := DEFAULT_STR, "last_polled" := DEFAULT_STR, "polling_interval" := DEFAULT_STR,
    "reachability_register" := DEFAULT_STR, "network_delay" := DEFAULT_STR, "time_offset" := DEFAULT_STR,
    "jitter" := DEFAULT_STR, "root_dispersion" := DEFAULT_STR, "reference_time" := DEFAULT_STR,
    "peer_status_word" := DEFAULT_STR, "associd" := DEFAULT_STR]

  lemma NewStatusIsBlank()
    ensures forall column :: column in NEW_STATUS ==> NEW_STATUS[column] == "-"
    ensures NEW_STATUS.Keys == {
      "remote_peer_address", "remote_peer_ref_id", "stratum", "peer_type", "last_polled", "polling_interval",
      "reachability_register", "network_delay", "time_offset", "jitter", "root_dispersion", "reference_time",
      "peer_status_word", "associd"}
  {
  }

  /** The parameters of `ntp server`; `None` stands for a null pointer. */
  datatype ServerParams = ServerParams(
    noForm: bool,
    vrfName: string,
    serverName: string,
    prefer: bool,
    version: Option<string>,
    keyId: Option<string>)

  /** The command that a parameter block stands for. */
  function CommandOf(p: ServerParams): Command {
    if p.noForm then NoServer(p.serverName) else Server(p.serverName, p.prefer, p.version, p.keyId)
  }

  /** The row of a deleted key leaves every association that referred to it. */
  function ClearReferences(rows: map<Uuid, AssocRecord>, key: Uuid): map<Uuid, AssocRecord> {
    map u | u in rows :: if rows[u].key == Some(key) then rows[u].(key := None) else rows[u]
  }

  /** What the daemon and the printer read from a row. */
  function InfoOf(row: AssocRecord, keyRows: map<Uuid, KeyRow>): AssocInfo {
    AssocInfo(if row.key.Some? && row.key.value in keyRows then Some(keyRows[row.key.value].keyId) else None,
              VersionOf(row.attributes), PreferOf(row.attributes))
  }

  function VersionOf(attributes: map<Attr, string>): string {
    Attribute(attributes, Version, DEFAULT_VERSION)
  }

  function PreferOf(attributes: map<Attr, string>): bool {
    Attribute(attributes, Prefer, FALSE_STR) == TRUE_STR
  }

  /** `prefer` is stored as one of two words, and a version is stored; unfolded on demand. */
  ghost predicate Readable(attributes: map<Attr, string>) {
    forall k {:trigger Unfolded(AttributeLayer, k)} :: Unfolded(AttributeLayer, k) ==>
      && Version in attributes && Prefer in attributes
      && (attributes[Prefer] == TRUE_STR || attributes[Prefer] == FALSE_STR)
  }

  function KeyInfoOf(row: KeyRow): KeyInfo {
    KeyInfo(row.password, row.trust)
  }

  /** The smap updates of `ntp_server_replace_parameters`. */
  function OverlayAttributes(attributes: map<Attr, string>, p: ServerParams): map<Attr, string> {
    var attributes := if p.prefer then attributes[Prefer := TRUE_STR] else attributes;
    if p.version.Some? then attributes[Version := p.version.value] else attributes
  }

  const NEW_ATTRIBUTES: map<Attr, string> :=
    map[RefClockId := DEFAULT_STR, Prefer := FALSE_STR, Version := DEFAULT_VERSION]

  // ---------- indexed rows ----------

  /** The index says where the row of each id is, and every row is where the index says; unfolded on demand. */
  ghost predicate KeysIndexed(rows: map<Uuid, KeyRow>, index: map<int, Uuid>, next: Uuid) {
    forall k {:trigger Unfolded(PlanLayer, k)} :: Unfolded(PlanLayer, k) ==> KeyIndexRight(rows, index, next)
  }

  predicate KeyIndexRight(rows: map<Uuid, KeyRow>, index: map<int, Uuid>, next: Uuid) {
    && (forall u :: u in rows ==> u < next && rows[u].keyId in index && index[rows[u].keyId] == u)
    && (forall id :: id in index ==> index[id] in rows && rows[index[id]].keyId == id)
  }

  function KeyView(rows: map<Uuid, KeyRow>, index: map<int, Uuid>): map<int, KeyInfo> {
    map id | id in index && index[id] in rows :: KeyInfoOf(rows[index[id]])
  }

  /** A row that the daemon and the printer can read. */
  ghost predicate RowOk(row: AssocRecord, keyRows: map<Uuid, KeyRow>) {
    (row.key.Some? ==> row.key.value in keyRows) && Readable(row.attributes)
  }

  /** The same for associations, which all belong to the one vrf; unfolded on demand. */
  ghost predicate AssocsIndexed(rows: map<Uuid, AssocRecord>, index: map<string, Uuid>, keyRows: map<Uuid, KeyRow>,
                                vrf: string, next: Uuid) {
    forall k {:trigger Unfolded(PlanLayer, k)} :: Unfolded(PlanLayer, k) ==> AssocIndexRight(rows, index, keyRows, vrf, next)
  }

  ghost predicate AssocIndexRight(rows: map<Uuid, AssocRecord>, index: map<string, Uuid>, keyRows: map<Uuid, KeyRow>,
                                  vrf: string, next: Uuid) {
    && (forall u :: u in rows ==>
          u < next && rows[u].vrf == vrf && RowOk(rows[u], keyRows) && rows[u].address in index && index[rows[u].address] == u)
    && (forall n :: n in index ==> index[n] in rows && rows[index[n]].address == n)
  }

  /** The rows by the names of an index. */
  function Lookup<K, R>(rows: map<Uuid, R>, index: map<K, Uuid>): map<K, R> {
    map n | n in index && index[n] in rows :: rows[index[n]]
  }

  function AssocView(rows: map<Uuid, AssocRecord>, index: map<string, Uuid>, keyRows: map<Uuid, KeyRow>): map<string, AssocInfo> {
    map n | n in index && index[n] in rows :: InfoOf(rows[index[n]], keyRows)
  }

  /** The identity counter after a row is stored under `u`. */
  function NextAfter(u: Uuid, next: Uuid): Uuid {
    if u == next then next + 1 else next
  }

  lemma KeyViewPut(rows: map<Uuid, KeyRow>, index: map<int, Uuid>, next: Uuid, u: Uuid, row: KeyRow)
    requires KeysIndexed(rows, index, next) && u <= next
    requires if u in rows then rows[u].keyId == row.keyId else row.keyId !in index
    ensures KeysIndexed(rows[u := row], index[row.keyId := u], NextAfter(u, next))
    ensures KeyView(rows[u := row], index[row.keyId := u])
         == KeyView(rows, index)[row.keyId := KeyInfoOf(row)]
  {
    assert Unfolded(PlanLayer, 0);
    forall id | id in index && id != row.keyId
      ensures index[id] in rows && rows[u := row][index[id]] == rows[index[id]]
    {
      assert rows[index[id]].keyId == id;
    }
  }

  lemma KeyViewDelete(rows: map<Uuid, KeyRow>, index: map<int, Uuid>, next: Uuid, u: Uuid)
    requires KeysIndexed(rows, index, next) && u in rows
    ensures KeysIndexed(rows - {u}, index - {rows[u].keyId}, next)
    ensures KeyView(rows - {u}, index - {rows[u].keyId}) == KeyView(rows, index) - {rows[u].keyId}
  {
    assert Unfolded(PlanLayer, 0);
    forall id | id in index && id != rows[u].keyId
      ensures index[id] in rows - {u} && (rows - {u})[index[id]] == rows[index[id]]
    {
      assert rows[index[id]].keyId == id;
    }
  }

  /** Other identities may be used up meanwhile. */
  lemma KeysIndexedNext(rows: map<Uuid, KeyRow>, index: map<int, Uuid>, next: Uuid, next': Uuid)
    requires KeysIndexed(rows, index, next) && next <= next'
    ensures KeysIndexed(rows, index, next')
  {
    assert Unfolded(PlanLayer, 0);
  }

  /** A change of the key table that keeps every id where it is does not show in the associations. */
  lemma AssocViewKeyPut(rows: map<Uuid, AssocRecord>, index: map<string, Uuid>, keyRows: map<Uuid, KeyRow>,
                        vrf: string, next: Uuid, u: Uuid, row: KeyRow)
    requires AssocsIndexed(rows, index, keyRows, vrf, next) && (u in keyRows ==> keyRows[u].keyId == row.keyId)
    ensures AssocsIndexed(rows, index, keyRows[u := row], vrf, NextAfter(u, next))
    ensures AssocView(rows, index, keyRows[u := row]) == AssocView(rows, index, keyRows)
  {
    assert Unfolded(PlanLayer, 0);
  }

  lemma ClearedRow(row: AssocRecord, keyRows: map<Uuid, KeyRow>, keyIndex: map<int, Uuid>, next: Uuid, u: Uuid)
    requires KeysIndexed(keyRows, keyIndex, next) && u in keyRows && RowOk(row, keyRows)
    ensures var row' := if row.key == Some(u) then row.(key := None) else row;
      var info := InfoOf(row, keyRows); var id := keyRows[u].keyId;
      RowOk(row', keyRows - {u})
      && InfoOf(row', keyRows - {u}) == if Refers(info, id) then info.(key := None) else info
  {
    assert Unfolded(PlanLayer, 0);
  }

  lemma AssocsIndexedKeyDelete(rows: map<Uuid, AssocRecord>, index: map<string, Uuid>, keyRows: map<Uuid, KeyRow>,
                               vrf: string, next: Uuid, keyIndex: map<int, Uuid>, u: Uuid)
    requires AssocsIndexed(rows, index, keyRows, vrf, next) && KeysIndexed(keyRows, keyIndex, next) && u in keyRows
    ensures AssocsIndexed(ClearReferences(rows, u), index, keyRows - {u}, vrf, next)
  {
    assert Unfolded(PlanLayer, 0);
    var cleared := ClearReferences(rows, u);
    forall v | v in rows
      ensures RowOk(cleared[v], keyRows - {u})
    {
      ClearedRow(rows[v], keyRows, keyIndex, next, u);
    }
  }

  lemma AssocViewKeyDelete(rows: map<Uuid, AssocRecord>, index: map<string, Uuid>, keyRows: map<Uuid, KeyRow>,
                           vrf: string, next: Uuid, keyIndex: map<int, Uuid>, u: Uuid)
    requires AssocsIndexed(rows, index, keyRows, vrf, next) && KeysIndexed(keyRows, keyIndex, next) && u in keyRows
    ensures AssocView(ClearReferences(rows, u), index, keyRows - {u}) == ClearKey(AssocView(rows, index, keyRows), keyRows[u].keyId)
  {
    var view, view' := AssocView(rows, index, keyRows), AssocView(ClearReferences(rows, u), index, keyRows - {u});
    var want := ClearKey(view, keyRows[u].keyId);
    assert view'.Keys == view.Keys == want.Keys;
    forall n | n in view
      ensures view'[n] == want[n]
    {
      ClearedAt(rows, index, keyRows, vrf, next, keyIndex, u, n);
    }
  }

  lemma ClearedAt(rows: map<Uuid, AssocRecord>, index: map<string, Uuid>, keyRows: map<Uuid, KeyRow>,
                  vrf: string, next: Uuid, keyIndex: map<int, Uuid>, u: Uuid, n: string)
    requires AssocsIndexed(rows, index, keyRows, vrf, next) && KeysIndexed(keyRows, keyIndex, next) && u in keyRows
    requires n in index && index[n] in rows
    ensures var info := InfoOf(rows[index[n]], keyRows); var id := keyRows[u].keyId;
      InfoOf(ClearReferences(rows, u)[index[n]], keyRows - {u}) == if Refers(info, id) then info.(key := None) else info
  {
    AssocAt(rows, index, keyRows, vrf, next, n);
    ClearedRow(rows[index[n]], keyRows, keyIndex, next, u);
  }

  lemma AssocsIndexedPut(rows: map<Uuid, AssocRecord>, index: map<string, Uuid>, keyRows: map<Uuid, KeyRow>,
                         vrf: string, next: Uuid, u: Uuid, row: AssocRecord)
    requires AssocsIndexed(rows, index, keyRows, vrf, next) && RowOk(row, keyRows) && row.vrf == vrf && u <= next
    requires if u in rows then rows[u].address == row.address else row.address !in index
    ensures AssocsIndexed(rows[u := row], index[row.address := u], keyRows, vrf, NextAfter(u, next))
  {
    assert Unfolded(PlanLayer, 0);
  }

  lemma AssocViewPut(rows: map<Uuid, AssocRecord>, index: map<string, Uuid>, keyRows: map<Uuid, KeyRow>,
                     vrf: string, next: Uuid, u: Uuid, row: AssocRecord)
    requires AssocsIndexed(rows, index, keyRows, vrf, next)
    requires if u in rows then rows[u].address == row.address else row.address !in index
    ensures AssocView(rows[u := row], index[row.address := u], keyRows)
         == AssocView(rows, index, keyRows)[row.address := InfoOf(row, keyRows)]
  {
    forall n | n in index && n != row.address
      ensures index[n] in rows && index[n] != u
    {
      AssocAt(rows, index, keyRows, vrf, next, n);
    }
    LookupPut(rows, index, row.address, u, row);
  }

  lemma LookupPut<K, R>(rows: map<Uuid, R>, index: map<K, Uuid>, k: K, u: Uuid, row: R)
    requires forall n :: n in index && n != k ==> index[n] in rows && index[n] != u
    ensures Lookup(rows[u := row], index[k := u]) == Lookup(rows, index)[k := row]
  {
  }

  lemma AssocViewDelete(rows: map<Uuid, AssocRecord>, index: map<string, Uuid>, keyRows: map<Uuid, KeyRow>,
                        vrf: string, next: Uuid, u: Uuid)
    requires AssocsIndexed(rows, index, keyRows, vrf, next) && u in rows
    ensures AssocsIndexed(rows - {u}, index - {rows[u].address}, keyRows, vrf, next)
    ensures AssocView(rows - {u}, index - {rows[u].address}, keyRows)
         == AssocView(rows, index, keyRows) - {rows[u].address}
  {
    assert Unfolded(PlanLayer, 0);
    forall n | n in index && n != rows[u].address
      ensures index[n] in rows - {u} && (rows - {u})[index[n]] == rows[index[n]]
    {
      assert rows[index[n]].address == n;
    }
  }

  /** What the index knows about one id. */
  lemma KeyAt(rows: map<Uuid, KeyRow>, index: map<int, Uuid>, next: Uuid, id: int)
    requires KeysIndexed(rows, index, next)
    ensures id in KeyView(rows, index) <==> id in index
    ensures id in index ==>
      && index[id] in rows && rows[index[id]].keyId == id
      && KeyView(rows, index)[id] == KeyInfoOf(rows[index[id]])
    ensures forall u :: u in rows && rows[u].keyId == id ==> id in index && index[id] == u
  {
    assert Unfolded(PlanLayer, 0);
  }

  /** What the index knows about one address. */
  lemma AssocAt(rows: map<Uuid, AssocRecord>, index: map<string, Uuid>, keyRows: map<Uuid, KeyRow>,
                vrf: string, next: Uuid, name: string)
    requires AssocsIndexed(rows, index, keyRows, vrf, next)
    ensures name in AssocView(rows, index, keyRows) <==> name in index
    ensures name in index ==>
      && index[name] in rows && rows[index[name]].address == name && rows[index[name]].vrf == vrf
      && RowOk(rows[index[name]], keyRows)
      && AssocView(rows, index, keyRows)[name] == InfoOf(rows[index[name]], keyRows)
    ensures forall u :: u in rows && rows[u].address == name ==> name in index && index[name] == u
  {
    assert Unfolded(PlanLayer, 0);
  }

  /** The flag in `ntp_config` of the System row. */
  predicate FlagOf(ntpConfig: map<string, string>) {
    AUTHENTICATION_ENABLE in ntpConfig && ntpConfig[AUTHENTICATION_ENABLE] == TRUE_STR
  }

  /** Setting the flag, and nothing but the flag. */
  lemma ShowsFlag(t: Tables, db: Db, enable: bool)
    requires Shows(t, db)
    ensures Shows(t.(ntpConfig := t.ntpConfig[AUTHENTICATION_ENABLE := if enable then TRUE_STR else FALSE_STR]), db.(auth := enable))
  {
    assert Unfolded(TableLayer, 0);
  }

  /** The fields of the tables, as one value. */
  datatype Tables = Tables(
    keyRows: map<Uuid, KeyRow>,
    keyIndex: map<int, Uuid>,
    assocRows: map<Uuid, AssocRecord>,
    assocIndex: map<string, Uuid>,
    ntpConfig: map<string, string>,
    vrf: string,
    next: Uuid)

  /** The rows are well indexed, and they say what the transaction machine's state says; unfolded on demand. */
  ghost predicate Shows(t: Tables, db: Db) {
    forall k {:trigger Unfolded(TableLayer, k)} :: Unfolded(TableLayer, k) ==>
      && KeysIndexed(t.keyRows, t.keyIndex, t.next)
      && AssocsIndexed(t.assocRows, t.assocIndex, t.keyRows, t.vrf, t.next)
      && db == Db(KeyView(t.keyRows, t.keyIndex), AssocView(t.assocRows, t.assocIndex, t.keyRows), FlagOf(t.ntpConfig))
  }

  lemma EmptyShows(vrf: string)
    ensures Shows(Tables(map[], map[], map[], map[], map[], vrf, 0), EMPTY)
  {
  }

  lemma ShowsFresh(t: Tables, db: Db)
    requires Shows(t, db)
    ensures forall u :: u in t.keyRows || u in t.assocRows ==> u < t.next
  {
    assert Unfolded(TableLayer, 0) && Unfolded(PlanLayer, 0);
  }

  lemma ShowsKeys(t: Tables, db: Db)
    requires Shows(t, db)
    ensures KeysIndexed(t.keyRows, t.keyIndex, t.next) && db.keys == KeyView(t.keyRows, t.keyIndex)
  {
    assert Unfolded(TableLayer, 0);
  }

  lemma ShowsAssocs(t: Tables, db: Db)
    requires Shows(t, db)
    ensures AssocsIndexed(t.assocRows, t.assocIndex, t.keyRows, t.vrf, t.next)
    ensures db.assocs == AssocView(t.assocRows, t.assocIndex, t.keyRows)
  {
    assert Unfolded(TableLayer, 0);
  }

  lemma ShowsKeyAt(t: Tables, db: Db, id: int)
    requires Shows(t, db)
    ensures id in db.keys <==> id in t.keyIndex
    ensures id in t.keyIndex ==>
      && t.keyIndex[id] in t.keyRows && t.keyRows[t.keyIndex[id]].keyId == id
      && db.keys[id] == KeyInfoOf(t.keyRows[t.keyIndex[id]])
    ensures forall u :: u in t.keyRows && t.keyRows[u].keyId == id ==> id in t.keyIndex && t.keyIndex[id] == u
  {
    ShowsKeys(t, db);
    KeyAt(t.keyRows, t.keyIndex, t.next, id);
  }

  lemma ShowsAssocAt(t: Tables, db: Db, name: string)
    requires Shows(t, db)
    ensures name in db.assocs <==> name in t.assocIndex
    ensures name in t.assocIndex ==>
      && t.assocIndex[name] in t.assocRows && t.assocRows[t.assocIndex[name]].address == name
      && t.assocRows[t.assocIndex[name]].vrf == t.vrf && RowOk(t.assocRows[t.assocIndex[name]], t.keyRows)
      && db.assocs[name] == InfoOf(t.assocRows[t.assocIndex[name]], t.keyRows)
    ensures forall u :: u in t.assocRows && t.assocRows[u].address == name ==> name in t.assocIndex && t.assocIndex[name] == u
  {
    ShowsAssocs(t, db);
    AssocAt(t.assocRows, t.assocIndex, t.keyRows, t.vrf, t.next, name);
  }

  lemma ShowsPutKey(t: Tables, db: Db, u: Uuid, row: KeyRow)
    requires Shows(t, db) && u <= t.next
    requires if u in t.keyRows then t.keyRows[u].keyId == row.keyId else row.keyId !in t.keyIndex
    ensures Shows(t.(keyRows := t.keyRows[u := row], keyIndex := t.keyIndex[row.keyId := u], next := NextAfter(u, t.next)),
                  db.(keys := db.keys[row.keyId := KeyInfoOf(row)]))
  {
    assert Unfolded(TableLayer, 0);
    KeyViewPut(t.keyRows, t.keyIndex, t.next, u, row);
    AssocViewKeyPut(t.assocRows, t.assocIndex, t.keyRows, t.vrf, t.next, u, row);
  }

  lemma ShowsDeleteKey(t: Tables, db: Db, u: Uuid)
    requires Shows(t, db) && u in t.keyRows
    ensures var id := t.keyRows[u].keyId;
      Shows(t.(keyRows := t.keyRows - {u}, keyIndex := t.keyIndex - {id}, assocRows := ClearReferences(t.assocRows, u)),
            Db(db.keys - {id}, ClearKey(db.assocs, id), db.auth))
  {
    assert Unfolded(TableLayer, 0);
    KeyViewDelete(t.keyRows, t.keyIndex, t.next, u);
    AssocsIndexedKeyDelete(t.assocRows, t.assocIndex, t.keyRows, t.vrf, t.next, t.keyIndex, u);
    AssocViewKeyDelete(t.assocRows, t.assocIndex, t.keyRows, t.vrf, t.next, t.keyIndex, u);
  }

  lemma ShowsPutAssoc(t: Tables, db: Db, u: Uuid, row: AssocRecord)
    requires Shows(t, db) && RowOk(row, t.keyRows) && row.vrf == t.vrf && u <= t.next
    requires if u in t.assocRows then t.assocRows[u].address == row.address else row.address !in t.assocIndex
    ensures Shows(t.(assocRows := t.assocRows[u := row], assocIndex := t.assocIndex[row.address := u], next := NextAfter(u, t.next)),
                  db.(assocs := db.assocs[row.address := InfoOf(row, t.keyRows)]))
  {
    assert Unfolded(TableLayer, 0);
    AssocsIndexedPut(t.assocRows, t.assocIndex, t.keyRows, t.vrf, t.next, u, row);
    AssocViewPut(t.assocRows, t.assocIndex, t.keyRows, t.vrf, t.next, u, row);
    KeysIndexedNext(t.keyRows, t.keyIndex, t.next, NextAfter(u, t.next));
  }

  lemma ShowsDeleteAssoc(t: Tables, db: Db, u: Uuid)
    requires Shows(t, db) && u in t.assocRows
    ensures var name := t.assocRows[u].address;
      Shows(t.(assocRows := t.assocRows - {u}, assocIndex := t.assocIndex - {name}), db.(assocs := db.assocs - {name}))
  {
    assert Unfolded(TableLayer, 0);
    AssocViewDelete(t.assocRows, t.assocIndex, t.keyRows, t.vrf, t.next, u);
  }

  lemma ShowsReferences(t: Tables, db: Db, k: Uuid)
    requires Shows(t, db) && k in t.keyRows
    ensures (exists u :: u in t.assocRows && t.assocRows[u].key == Some(k)) <==> Referenced(db, t.keyRows[k].keyId)
  {
    assert Unfolded(TableLayer, 0) && Unfolded(PlanLayer, 0);
    if u :| u in t.assocRows && t.assocRows[u].key == Some(k) {
      assert Refers(db.assocs[t.assocRows[u].address], t.keyRows[k].keyId);
    }
    if Referenced(db, t.keyRows[k].keyId) {
      var n :| n in db.assocs && Refers(db.assocs[n], t.keyRows[k].keyId);
      assert t.assocRows[t.assocIndex[n]].key == Some(k);
    }
  }

  lemma ShowsCount(t: Tables, db: Db)
    requires Shows(t, db)
    ensures |db.assocs| == |t.assocRows|
  {
    assert Unfolded(TableLayer, 0) && Unfolded(PlanLayer, 0);
    assert db.assocs.Keys == t.assocIndex.Keys;
    SameCount(t.assocIndex, t.assocRows.Keys);
  }

  /** The immutable columns and the defaults of a row being inserted. */
  method NewRow(name: string, vrf: string, status: map<string, string>, ghost keyRows: map<Uuid, KeyRow>) returns (row: AssocRecord)
    ensures row.address == name && row.vrf == vrf && row.key == None && row.status == status
    ensures row.attributes == map[RefClockId := "-", Prefer := "false", Version := "3"]
    ensures RowOk(row, keyRows) && InfoOf(row, keyRows) == DEFAULT_ASSOC
  {
    row := AssocRecord(name, vrf, None, NEW_ATTRIBUTES, status);
  }

  method OverlayRow(row0: AssocRecord, ghost keyRows: map<Uuid, KeyRow>, p: ServerParams, key: Option<Uuid>)
    returns (row: AssocRecord)
    requires RowOk(row0, keyRows)
    requires p.keyId.Some? ==> key.Some? && key.value in keyRows && keyRows[key.value].keyId == Atoi(p.keyId.value)
    ensures row.address == row0.address && row.vrf == row0.vrf && row.status == row0.status
    ensures RowOk(row, keyRows) && InfoOf(row, keyRows) == Overlay(InfoOf(row0, keyRows), p.prefer, p.version, p.keyId)
  {
    row := row0.(attributes := OverlayAttributes(row0.attributes, p), key := if p.keyId.Some? then key else row0.key);
  }

  /** An index that reaches every row, one name a row, has as many names as there are rows. */
  lemma {:induction false} SameCount(index: map<string, Uuid>, rows: set<Uuid>)
    requires forall n :: n in index ==> index[n] in rows
    requires forall u :: u in rows ==> exists n :: n in index && index[n] == u
    requires forall m, n :: m in index && n in index && index[m] == index[n] ==> m == n
    ensures |index| == |rows|
    decreases rows
  {
    if rows == {} {
      assert index.Keys == {};
    } else {
      var u :| u in rows;
      var n :| n in index && index[n] == u;
      var rest := index - {n};
      assert rest.Keys == index.Keys - {n};
      forall v | v in rows - {u}
        ensures exists m :: m in rest && rest[m] == v
      {
        var m :| m in index && index[m] == v;
        assert m in rest;
      }
      SameCount(rest, rows - {u});
    }
  }
}
