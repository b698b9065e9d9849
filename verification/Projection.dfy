/**
 From table rows to the daemon's maps.  The loops keep `key_id`, `key_password` and
 `ip_address` from one row to the next, so a row with an empty column silently takes the
 value of an earlier row.
 */
module Projection {
  import opened Wrappers
  import opened CommandText
  import opened Plans

  datatype SystemRow = SystemRow(curCfg: int, ntpConfig: map<string, string>)
  datatype KeyRow = KeyRow(keyId: int, password: string, trust: bool)

  /** The keys of `association_attributes`: three known names, and any others. */
  datatype Attr = RefClockId | Prefer | Version | OtherAttr(name: string)

  /** `key` is the id found in the key row that the association refers to. */
  datatype AssocRow = AssocRow(vrf: string, address: string, key: Option<int>, attributes: map<Attr, string>)

  /** What the daemon's replica of the database holds, rows in the replica's order. */
  datatype Snapshot = Snapshot(systems: seq<SystemRow>, keys: seq<KeyRow>, assocs: seq<AssocRow>)

  // ---------- the authentication flag ----------

  const AUTHENTICATION_ENABLE := "authentication_enable"

  /** The flag of the last row that has one. */
  function AuthOf(rows: seq<SystemRow>): string {
    if rows == [] then "false"
    else
      var config := rows[|rows| - 1].ntpConfig;
      if AUTHENTICATION_ENABLE in config then config[AUTHENTICATION_ENABLE] else AuthOf(rows[..|rows| - 1])
  }

  /** Row `i` is the last that has the flag. */
  predicate LastWithFlag(rows: seq<SystemRow>, i: int) {
    && 0 <= i < |rows| && "authentication_enable" in rows[i].ntpConfig
    && forall j :: i < j < |rows| ==> "authentication_enable" !in rows[j].ntpConfig
  }

  /** The flag read is the one stored in the last row that has one, "false" if there is none. */
  lemma {:induction false} LastFlagIsRead(rows: seq<SystemRow>)
    ensures forall i :: LastWithFlag(rows, i) ==> AuthOf(rows) == rows[i].ntpConfig["authentication_enable"]
    ensures (forall i :: 0 <= i < |rows| ==> "authentication_enable" !in rows[i].ntpConfig) ==> AuthOf(rows) == "false"
  {
    if rows != [] {
      var rest := rows[..|rows| - 1];
      LastFlagIsRead(rest);
      forall i | LastWithFlag(rows, i) && i < |rest| ensures LastWithFlag(rest, i) {
        forall j | i < j < |rest| ensures "authentication_enable" !in rest[j].ntpConfig {
          assert rest[j] == rows[j];
        }
      }
    }
  }

  method ReadAuthentication(rows: seq<SystemRow>) returns (auth: string)
    ensures auth == AuthOf(rows)
    ensures forall i :: LastWithFlag(rows, i) ==> auth == rows[i].ntpConfig["authentication_enable"]
    ensures (forall i :: 0 <= i < |rows| ==> "authentication_enable" !in rows[i].ntpConfig) ==> auth == "false"
  {
    LastFlagIsRead(rows);
    auth := "false";
    for i := 0 to |rows|
      invariant auth == AuthOf(rows[..i])
    {
      assert rows[..i + 1][..i] == rows[..i];
      if AUTHENTICATION_ENABLE in rows[i].ntpConfig {
        auth := rows[i].ntpConfig[AUTHENTICATION_ENABLE];
      }
    }
    assert rows[..|rows|] == rows;
  }

  /** `cur_cfg` of some row tells that the configuration has been restored. */
  predicate Configured(rows: seq<SystemRow>) {
    exists i :: 0 <= i < |rows| && rows[i].curCfg != 0
  }

  method CheckSystemStatus(rows: seq<SystemRow>) returns (configured: bool)
    ensures configured == Configured(rows)
    ensures configured <==> exists i :: 0 <= i < |rows| && rows[i].curCfg != 0
  {
    for i := 0 to |rows|
      invariant forall j :: 0 <= j < i ==> rows[j].curCfg == 0
    {
      if rows[i].curCfg != 0 {
        return true;
      }
    }
    return false;
  }

  // ---------- keys ----------

  /** The loop state after some rows; reading a variable never set stops the daemon. */
  datatype KeyScan = KeyScan(keyId: Option<int>, password: Option<string>, db: KeyDb) | KeyUnbound

  predicate Eligible(row: KeyRow, auth: string) {
    row.trust && auth == "true"
  }

  function KeyStep(scan: KeyScan, row: KeyRow, auth: string): KeyScan {
    if scan.KeyUnbound? then scan
    else
      var keyId := if row.keyId != 0 then Some(row.keyId) else scan.keyId;
      var password := if row.password != "" then Some(row.password) else scan.password;
      if !Eligible(row, auth) then KeyScan(keyId, password, scan.db)
      else if keyId.None? || password.None? then KeyUnbound
      else KeyScan(keyId, password, scan.db[keyId.value := KeyEntry(password.value, true)])
  }

  function ScanKeys(rows: seq<KeyRow>, auth: string): KeyScan {
    if rows == [] then KeyScan(None, None, map[])
    else KeyStep(ScanKeys(rows[..|rows| - 1], auth), rows[|rows| - 1], auth)
  }

  method ProjectKeys(rows: seq<KeyRow>, auth: string) returns (result: Option<KeyDb>)
    ensures result == if ScanKeys(rows, auth).KeyScan? then Some(ScanKeys(rows, auth).db) else None
  {
    var keyId: Option<int>, password: Option<string>, db: KeyDb := None, None, map[];
    for i := 0 to |rows|
      invariant ScanKeys(rows[..i], auth) == KeyScan(keyId, password, db)
    {
      var row := rows[i];
      assert rows[..i + 1][..i] == rows[..i];
      if row.keyId != 0 {
        keyId := Some(row.keyId);
      }
      if row.password != "" {
        password := Some(row.password);
      }
      if row.trust && auth == "true" {
        if keyId.None? || password.None? {
          UnboundStaysUnbound(rows, i + 1, auth);
          return None;
        }
        db := db[keyId.value := KeyEntry(password.value, true)];
      }
    }
    assert rows[..|rows|] == rows;
    return Some(db);
  }

  lemma {:induction false} UnboundStaysUnbound(rows: seq<KeyRow>, n: nat, auth: string)
    requires n <= |rows| && ScanKeys(rows[..n], auth).KeyUnbound?
    ensures ScanKeys(rows, auth).KeyUnbound?
    decreases |rows|
  {
    if n == |rows| {
      assert rows[..n] == rows;
    } else {
      assert rows[..|rows| - 1][..n] == rows[..n];
      UnboundStaysUnbound(rows[..|rows| - 1], n, auth);
    }
  }

  predicate UniqueKeyIds(rows: seq<KeyRow>) {
    forall i, j :: 0 <= i < j < |rows| ==> rows[i].keyId != rows[j].keyId
  }

  /** One entry for each eligible row, made from that row alone; says nothing about row order. */
  predicate ProjectsKeys(rows: seq<KeyRow>, auth: string, db: KeyDb) {
    && (forall row :: row in rows && Eligible(row, auth) ==>
          row.keyId in db && db[row.keyId] == KeyEntry(row.password, true))
    && (forall id :: id in db ==> exists row :: row in rows && Eligible(row, auth) && row.keyId == id)
  }

  predicate CompleteKeyRow(row: KeyRow) {
    row.keyId != 0 && row.password != ""
  }

  lemma {:induction false} ScannedKeysAreSet(rows: seq<KeyRow>, auth: string)
    ensures var scan := ScanKeys(rows, auth);
      scan.KeyScan? ==>
        && (scan.keyId.Some? ==> scan.keyId.value != 0)
        && (scan.password.Some? ==> scan.password.value != "")
        && forall id :: id in scan.db ==> id != 0 && scan.db[id].password != ""
    decreases |rows|
  {
    if rows != [] {
      ScannedKeysAreSet(rows[..|rows| - 1], auth);
    }
  }

  lemma {:induction false} CompleteKeysProject(rows: seq<KeyRow>, auth: string)
    requires UniqueKeyIds(rows)
    requires forall row :: row in rows && Eligible(row, auth) ==> CompleteKeyRow(row)
    ensures ScanKeys(rows, auth).KeyScan? && ProjectsKeys(rows, auth, ScanKeys(rows, auth).db)
    decreases |rows|
  {
    if rows != [] {
      var n := |rows| - 1;
      CompleteKeysProject(rows[..n], auth);
      assert forall row :: row in rows <==> row in rows[..n] || row == rows[n];
      assert forall row :: row in rows[..n] ==> row.keyId != rows[n].keyId;
    }
  }

  /**
   The key map is row-local exactly when every eligible row has its id and its password:
   with unique ids, the loop yields one entry per eligible row computed from that row alone
   if and only if no eligible row leaves a column empty.
   */
  lemma KeyProjectionExact(rows: seq<KeyRow>, auth: string)
    requires UniqueKeyIds(rows)
    ensures (ScanKeys(rows, auth).KeyScan? && ProjectsKeys(rows, auth, ScanKeys(rows, auth).db))
       <==> (forall row :: row in rows && Eligible(row, auth) ==> CompleteKeyRow(row))
  {
    if forall row :: row in rows && Eligible(row, auth) ==> CompleteKeyRow(row) {
      CompleteKeysProject(rows, auth);
    } else {
      ScannedKeysAreSet(rows, auth);
    }
  }

  /** What goes wrong otherwise: a trusted key without a password takes over an earlier key's password. */
  lemma PasswordIsCarriedOver(a: int, b: int, password: string)
    requires a != 0 && b != 0 && password != ""
    ensures ScanKeys([KeyRow(a, password, false), KeyRow(b, "", true)], "true")
         == KeyScan(Some(b), Some(password), map[b := KeyEntry(password, true)])
  {
    var rows := [KeyRow(a, password, false), KeyRow(b, "", true)];
    assert rows[..1] == [rows[0]] && [rows[0]][..0] == [];
    assert ScanKeys([rows[0]], "true") == KeyScan(Some(a), Some(password), map[]);
  }

  /** A relation that the rows determine alone determines the map. */
  lemma KeyProjectionUnique(rows: seq<KeyRow>, rows': seq<KeyRow>, auth: string, db: KeyDb, db': KeyDb)
    requires forall row :: row in rows <==> row in rows'
    requires ProjectsKeys(rows, auth, db) && ProjectsKeys(rows', auth, db')
    ensures db == db'
  {
    forall id | id in db
      ensures id in db' && db[id] == db'[id]
    {
      var row :| row in rows && Eligible(row, auth) && row.keyId == id;
      assert row in rows';
    }
    forall id | id in db'
      ensures id in db
    {
      var row :| row in rows' && Eligible(row, auth) && row.keyId == id;
      assert row in rows;
    }
  }

  /** The key loop gives the same map in every order of the rows. */
  lemma KeyProjectionUnordered(rows: seq<KeyRow>, rows': seq<KeyRow>, auth: string)
    requires UniqueKeyIds(rows) && UniqueKeyIds(rows') && forall row :: row in rows <==> row in rows'
    requires forall row :: row in rows && Eligible(row, auth) ==> CompleteKeyRow(row)
    ensures ScanKeys(rows, auth).KeyScan? && ScanKeys(rows', auth).KeyScan?
    ensures ScanKeys(rows, auth).db == ScanKeys(rows', auth).db
  {
    CompleteKeysProject(rows, auth);
    CompleteKeysProject(rows', auth);
    KeyProjectionUnique(rows, rows', auth, ScanKeys(rows, auth).db, ScanKeys(rows', auth).db);
  }

  // ---------- associations ----------

  datatype AssocScan = AssocScan(address: Option<string>, m: NtpaMap) | AssocUnbound

  function Attribute(attributes: map<Attr, string>, name: Attr, default: string): string {
    if name in attributes then attributes[name] else default
  }

  const DEFAULT_REF_CLOCK_ID := ".LOCL."
  const DEFAULT_VERSION := "3"

  /** The record of a row whose address column stands for `address`. */
  function RecordAt(row: AssocRow, address: string): NtpaRecord {
    NtpaRecord(address, row.vrf, row.key,
               Attribute(row.attributes, RefClockId, DEFAULT_REF_CLOCK_ID),
               Attribute(row.attributes, Prefer, DEFAULT_PREFER),
               Attribute(row.attributes, Version, DEFAULT_VERSION))
  }

  /** A record holds what its row says, column by column, with the defaults for attributes left out. */
  lemma RecordSays(row: AssocRow, address: string)
    ensures var r := RecordAt(row, address);
      && r.address == address && r.vrf == row.vrf && r.keyId == row.key
      && r.refClockId == (if RefClockId in row.attributes then row.attributes[RefClockId] else ".LOCL.")
      && r.prefer == (if Prefer in row.attributes then row.attributes[Prefer] else "false")
      && r.version == (if Version in row.attributes then row.attributes[Version] else "3")
  {
  }

  function AssocStep(scan: AssocScan, row: AssocRow): AssocScan {
    if scan.AssocUnbound? then scan
    else
      var address := if row.address != "" then Some(row.address) else scan.address;
      if address.None? then AssocUnbound
      else AssocScan(address, scan.m[(row.vrf, address.value) := RecordAt(row, address.value)])
  }

  function ScanAssocs(rows: seq<AssocRow>): AssocScan {
    if rows == [] then AssocScan(None, map[])
    else AssocStep(ScanAssocs(rows[..|rows| - 1]), rows[|rows| - 1])
  }

  method ProjectAssocs(rows: seq<AssocRow>) returns (result: Option<NtpaMap>)
    ensures result == if ScanAssocs(rows).AssocScan? then Some(ScanAssocs(rows).m) else None
  {
    var ipAddress: Option<string>, m: NtpaMap := None, map[];
    for i := 0 to |rows|
      invariant ScanAssocs(rows[..i]) == AssocScan(ipAddress, m)
    {
      var row := rows[i];
      assert rows[..i + 1][..i] == rows[..i];
      var refClockId, prefer, version := DEFAULT_REF_CLOCK_ID, DEFAULT_PREFER, DEFAULT_VERSION;
      if row.address != "" {
        ipAddress := Some(row.address);
      }
      if RefClockId in row.attributes {
        refClockId := row.attributes[RefClockId];
      }
      if Prefer in row.attributes {
        prefer := row.attributes[Prefer];
      }
      if Version in row.attributes {
        version := row.attributes[Version];
      }
      if ipAddress.None? {
        UnboundAssocsStay(rows, i + 1);
        return None;
      }
      m := m[(row.vrf, ipAddress.value) := NtpaRecord(ipAddress.value, row.vrf, row.key, refClockId, prefer, version)];
    }
    assert rows[..|rows|] == rows;
    return Some(m);
  }

  lemma {:induction false} UnboundAssocsStay(rows: seq<AssocRow>, n: nat)
    requires n <= |rows| && ScanAssocs(rows[..n]).AssocUnbound?
    ensures ScanAssocs(rows).AssocUnbound?
    decreases |rows|
  {
    if n == |rows| {
      assert rows[..n] == rows;
    } else {
      assert rows[..|rows| - 1][..n] == rows[..n];
      UnboundAssocsStay(rows[..|rows| - 1], n);
    }
  }

  predicate UniquePairs(rows: seq<AssocRow>) {
    forall i, j :: 0 <= i < j < |rows| ==> (rows[i].vrf, rows[i].address) != (rows[j].vrf, rows[j].address)
  }

  predicate ProjectsAssocs(rows: seq<AssocRow>, m: NtpaMap) {
    && (forall row :: row in rows ==>
          (row.vrf, row.address) in m && m[(row.vrf, row.address)] == RecordAt(row, row.address))
    && (forall k :: k in m ==> exists row :: row in rows && (row.vrf, row.address) == k)
  }

  lemma {:induction false} ScannedAssocsAreSet(rows: seq<AssocRow>)
    ensures var scan := ScanAssocs(rows);
      scan.AssocScan? ==>
        && (scan.address.Some? ==> scan.address.value != "")
        && WellKeyed(scan.m)
        && forall k :: k in scan.m ==> k.1 != ""
    decreases |rows|
  {
    if rows != [] {
      ScannedAssocsAreSet(rows[..|rows| - 1]);
    }
  }

  lemma {:induction false} CompleteAssocsProject(rows: seq<AssocRow>)
    requires UniquePairs(rows)
    requires forall row :: row in rows ==> row.address != ""
    ensures ScanAssocs(rows).AssocScan? && ProjectsAssocs(rows, ScanAssocs(rows).m)
    decreases |rows|
  {
    if rows != [] {
      var n := |rows| - 1;
      CompleteAssocsProject(rows[..n]);
      assert forall row :: row in rows <==> row in rows[..n] || row == rows[n];
      assert forall row :: row in rows[..n] ==> (row.vrf, row.address) != (rows[n].vrf, rows[n].address);
    }
  }

  /**
   The association map is row-local exactly when every row has its address: with unique
   (vrf, address) pairs, the loop yields one entry per row computed from that row alone if
   and only if no row leaves the address empty.
   */
  lemma AssocProjectionExact(rows: seq<AssocRow>)
    requires UniquePairs(rows)
    ensures (ScanAssocs(rows).AssocScan? && ProjectsAssocs(rows, ScanAssocs(rows).m))
       <==> (forall row :: row in rows ==> row.address != "")
  {
    if forall row :: row in rows ==> row.address != "" {
      CompleteAssocsProject(rows);
    } else {
      ScannedAssocsAreSet(rows);
    }
  }

  /** What goes wrong otherwise: a row without an address replaces the record of an earlier row. */
  lemma AddressIsCarriedOver(vrf: string, address: string, x: map<Attr, string>, y: map<Attr, string>)
    requires address != ""
    ensures ScanAssocs([AssocRow(vrf, address, None, x), AssocRow(vrf, "", None, y)])
         == AssocScan(Some(address), map[(vrf, address) := RecordAt(AssocRow(vrf, "", None, y), address)])
  {
    var rows := [AssocRow(vrf, address, None, x), AssocRow(vrf, "", None, y)];
    assert rows[..1] == [rows[0]] && [rows[0]][..0] == [];
    assert ScanAssocs([rows[0]]) == AssocScan(Some(address), map[(vrf, address) := RecordAt(rows[0], address)]);
  }

  /** A relation that the rows determine alone determines the map. */
  lemma AssocProjectionUnique(rows: seq<AssocRow>, rows': seq<AssocRow>, m: NtpaMap, m': NtpaMap)
    requires forall row :: row in rows <==> row in rows'
    requires ProjectsAssocs(rows, m) && ProjectsAssocs(rows', m')
    ensures m == m'
  {
    forall k | k in m
      ensures k in m' && m[k] == m'[k]
    {
      var row :| row in rows && (row.vrf, row.address) == k;
      assert row in rows';
    }
    forall k | k in m'
      ensures k in m
    {
      var row :| row in rows' && (row.vrf, row.address) == k;
      assert row in rows;
    }
  }

  /** The association loop gives the same map in every order of the rows. */
  lemma AssocProjectionUnordered(rows: seq<AssocRow>, rows': seq<AssocRow>)
    requires UniquePairs(rows) && UniquePairs(rows') && forall row :: row in rows <==> row in rows'
    requires forall row :: row in rows ==> row.address != ""
    ensures ScanAssocs(rows).AssocScan? && ScanAssocs(rows').AssocScan?
    ensures ScanAssocs(rows).m == ScanAssocs(rows').m
  {
    CompleteAssocsProject(rows);
    CompleteAssocsProject(rows');
    AssocProjectionUnique(rows, rows', ScanAssocs(rows).m, ScanAssocs(rows').m);
  }
}
