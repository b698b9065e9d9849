/**
 The command handlers over database rows.  Every handler refines the transaction machine of
 the module Cli.
 */
module CliTables {
  import opened Wrappers
  import opened Text
  import opened Enumerations
  import opened Projection
  import opened Cli
  import opened RunningConfig
  import opened TableRows
  import opened ConfigPrinter
  import opened SharedRows
  import opened Unfolding
  import S = StatusSync

  method HasAllDigitsLoop(name: string) returns (all: bool)
    ensures all == HasAllDigits(name)
  {
    for i := 0 to |name|
      invariant forall j :: 0 <= j < i ==> IsPunct(name[j]) || IsDigit(name[j])
    {
      if !IsPunct(name[i]) && !IsDigit(name[i]) {
        return false;
      }
    }
    return true;
  }

  method IsValidServerName(env: Env, name: string) returns (valid: bool)
    ensures valid == ValidName(env, name)
  {
    var digits := HasAllDigitsLoop(name);
    return !digits || ValidIpv4(env, name);
  }

  method SanitizeName(env: Env, name: string) returns (outcome: Outcome)
    ensures outcome == CheckName(env, name)
  {
    if |name| > MAX_NAME {
      return NothingToDo;
    }
    var valid := IsValidServerName(env, name);
    return if valid then Success else NothingToDo;
  }

  method SanitizeVersion(version: Option<string>) returns (outcome: Outcome)
    ensures outcome == VersionSanity(version)
  {
    outcome := Success;
    if version.Some? {
      var ntpVersion := Atoi(version.value);
      if ntpVersion < 3 || ntpVersion > 4 {
        outcome := NothingToDo;
      }
    }
  }

  method FindKeyRow(rows: map<Uuid, KeyRow>, key: int) returns (row: Option<Uuid>)
    ensures row.Some? ==> row.value in rows && rows[row.value].keyId == key
    ensures row.None? ==> forall u :: u in rows ==> rows[u].keyId != key
  {
    var todo := rows.Keys;
    while todo != {}
      invariant todo <= rows.Keys
      invariant forall u :: u in rows && u !in todo ==> rows[u].keyId != key
      decreases todo
    {
      var u :| u in todo;
      if rows[u].keyId == key {
        return Some(u);
      }
      todo := todo - {u};
    }
    return None;
  }

  method FindAssocRow(rows: map<Uuid, AssocRecord>, vrfName: string, serverName: string) returns (row: Option<Uuid>)
    ensures row.Some? ==> row.value in rows && rows[row.value].address == serverName && rows[row.value].vrf == vrfName
    ensures row.None? ==> forall u :: u in rows ==> !(rows[u].address == serverName && rows[u].vrf == vrfName)
  {
    var todo := rows.Keys;
    while todo != {}
      invariant todo <= rows.Keys
      invariant forall u :: u in rows && u !in todo ==> !(rows[u].address == serverName && rows[u].vrf == vrfName)
      decreases todo
    {
      var u :| u in todo;
      if rows[u].address == serverName {
        if rows[u].vrf == vrfName {
          return Some(u);
        }
      }
      todo := todo - {u};
    }
    return None;
  }

  class NtpTables {
    const env: Env

    /** The name of the first vrf row, which every new association gets. */
    const vrf: string

    /** The status of a new row. */
    const blank: S.Column

    var keyRows: map<Uuid, KeyRow>
    var assocRows: map<Uuid, AssocRecord>

    /** `ntp_config` of the System row. */
    var ntpConfig: map<string, string>
    var nextUuid: Uuid

    /** Where the row with an id or an address is. */
    ghost var keyIndex: map<int, Uuid>
    ghost var assocIndex: map<string, Uuid>

    /** The tables as the transaction machine sees them. */
    ghost var db: Db

    ghost function Fields(): Tables
      reads this
    {
      Tables(keyRows, keyIndex, assocRows, assocIndex, ntpConfig, vrf, nextUuid)
    }

    /** Unique ids, unique (vrf, address) pairs, no dangling key reference; `db` is what the rows say. */
    ghost predicate Valid()
      reads this
    {
      Shows(Fields(), db)
    }

    /** The status of each association. */
    ghost function Statuses(): map<string, S.Column>
      reads this
    {
      StatusView(assocRows, assocIndex)
    }

    constructor (env: Env, vrf: string)
      ensures Valid() && this.env == env && this.vrf == vrf && blank == NEW_STATUS && db == EMPTY && Statuses() == map[]
      ensures forall column :: column in blank ==> blank[column] == "-"
    {
      this.env, this.vrf, blank := env, vrf, NEW_STATUS;
      keyRows, assocRows, ntpConfig, nextUuid := map[], map[], map[], 0;
      keyIndex, assocIndex, db := map[], map[], EMPTY;
      EmptyShows(vrf);
      NewStatusIsBlank();
    }

    /** The key row with an id. */
    ghost predicate RowOfKey(u: Uuid, id: int)
      reads this
    {
      u in keyRows && keyRows[u].keyId == id && id in db.keys && db.keys[id] == KeyInfoOf(keyRows[u])
    }

    /** `ntp_ovsrec_get_auth_key`: a walk over the key rows in the table's order. */
    method GetAuthKey(key: int) returns (row: Option<Uuid>)
      requires Valid()
      ensures row.Some? <==> key in db.keys
      ensures row.Some? ==> RowOfKey(row.value, key)
    {
      ShowsKeyAt(Fields(), db, key);
      row := FindKeyRow(keyRows, key);
    }

    /** The association row with an address in the one vrf. */
    ghost predicate RowOfName(u: Uuid, name: string)
      reads this
    {
      && u in assocRows && assocRows[u].address == name && assocRows[u].vrf == vrf && RowOk(assocRows[u], keyRows)
      && name in db.assocs && db.assocs[name] == InfoOf(assocRows[u], keyRows)
    }

    /** `ntp_ovsrec_get_assoc` */
    method GetAssoc(vrfName: string, serverName: string) returns (row: Option<Uuid>)
      requires Valid()
      ensures row.Some? <==> vrfName == vrf && serverName in db.assocs
      ensures row.Some? ==> RowOfName(row.value, serverName)
    {
      ShowsAssocAt(Fields(), db, serverName);
      row := FindAssocRow(assocRows, vrfName, serverName);
    }

    /** `ntp_sanitize_auth_key`; `wantRow` asks for the key row as well. */
    method SanitizeAuthKey(key: Option<string>, wantRow: bool, password: Option<string>)
      returns (outcome: Outcome, row: Option<Uuid>)
      requires Valid()
      ensures outcome == KeySanity(db, key, wantRow, password)
      ensures outcome == Success && key.Some? && wantRow ==> row.Some? && RowOfKey(row.value, Atoi(key.value))
    {
      row := None;
      if key.Some? {
        var keyId := Atoi(key.value);
        if keyId < KEY_ID_MIN || keyId > KEY_ID_MAX {
          return NothingToDo, None;
        }
        if wantRow {
          row := GetAuthKey(keyId);
          if row.None? {
            return DbFailure, None;
          }
        }
      }
      if password.Some? && (|password.value| < PASSWORD_MIN || |password.value| > PASSWORD_MAX) {
        return NothingToDo, row;
      }
      return Success, row;
    }

    /** `vtysh_ovsdb_ntp_auth_enable_set` */
    method AuthEnableSet(noForm: bool) returns (outcome: Outcome)
      requires Valid()
      modifies `ntpConfig, `db
      ensures Valid() && (db, outcome) == Apply(env, old(db), AuthEnable(!noForm))
      ensures Statuses() == old(Statuses())
      ensures ntpConfig == if env.hasSystem then old(ntpConfig)["authentication_enable" := if noForm then "false" else "true"]
                           else old(ntpConfig)
    {
      if !env.hasSystem {
        return Warning;
      }
      ShowsFlag(Fields(), db, !noForm);
      if noForm {
        ntpConfig := ntpConfig[AUTHENTICATION_ENABLE := FALSE_STR];
      } else {
        ntpConfig := ntpConfig[AUTHENTICATION_ENABLE := TRUE_STR];
      }
      db := db.(auth := !noForm);
      outcome := Success;
    }

    /** `vtysh_ovsdb_ntp_auth_key_set` without `no` */
    method AuthKeySet(key: string, password: string) returns (outcome: Outcome)
      requires Valid()
      modifies `keyRows, `keyIndex, `nextUuid, `db
      ensures Valid() && (db, outcome) == Apply(env, old(db), AuthKey(key, password))
      ensures Statuses() == old(Statuses())
    {
      var sane, _ := SanitizeAuthKey(Some(key), false, Some(password));
      if sane != Success {
        return sane;
      }
      StoreKey(Atoi(key), password);
      outcome := Success;
    }

    /** The transaction proper: insert a row, or replace the password of the row that is there. */
    method StoreKey(id: int, password: string)
      requires Valid()
      modifies `keyRows, `keyIndex, `nextUuid, `db
      ensures Valid() && db == SetKey(old(db), id, password)
      ensures Statuses() == old(Statuses())
    {
      var row := GetAuthKey(id);
      if row.None? {
        PutKey(nextUuid, KeyRow(id, password, false));
      } else {
        ShowsFresh(Fields(), db);
        PutKey(row.value, keyRows[row.value].(password := password));
      }
    }

    /** Stores a key row: a new one under an unused identity, or new contents of one that is there. */
    method PutKey(u: Uuid, row: KeyRow)
      requires Valid()
      requires if u == nextUuid then row.keyId !in db.keys else u in keyRows && keyRows[u].keyId == row.keyId
      modifies `keyRows, `keyIndex, `nextUuid, `db
      ensures Valid() && db == old(db).(keys := old(db).keys[row.keyId := KeyInfoOf(row)])
      ensures Statuses() == old(Statuses())
    {
      ShowsFresh(Fields(), db);
      ShowsKeyAt(Fields(), db, row.keyId);
      ghost var t := Tables(keyRows[u := row], keyIndex[row.keyId := u], assocRows, assocIndex, ntpConfig, vrf, NextAfter(u, nextUuid));
      ghost var d := db.(keys := db.keys[row.keyId := KeyInfoOf(row)]);
      ShowsPutKey(Fields(), db, u, row);
      assert Shows(t, d);
      keyRows, keyIndex, nextUuid := keyRows[u := row], t.keyIndex, NextAfter(u, nextUuid);
      db := d;
      assert Fields() == t;
    }

    /** `vtysh_ovsdb_ntp_auth_key_set` with `no` */
    method AuthKeyUnset(key: string) returns (outcome: Outcome)
      requires Valid()
      modifies `keyRows, `keyIndex, `assocRows, `db
      ensures Valid() && (db, outcome) == Apply(env, old(db), NoAuthKey(key))
      ensures Statuses() == old(Statuses())
    {
      var sane, _ := SanitizeAuthKey(Some(key), false, None);
      if sane != Success {
        return sane;
      }
      outcome := RemoveKey(Atoi(key));
    }

    /** The transaction proper; a strong reference makes the commit fail. */
    method RemoveKey(id: int) returns (outcome: Outcome)
      requires Valid()
      modifies `keyRows, `keyIndex, `assocRows, `db
      ensures Valid() && (db, outcome) == DeleteKey(env, old(db), id)
      ensures Statuses() == old(Statuses())
    {
      var row := GetAuthKey(id);
      if row.None? {
        return Success;
      }
      ShowsReferences(Fields(), db, row.value);
      if env.refs == Strong && exists u :: u in assocRows && assocRows[u].key == row {
        return Warning;
      }
      ghost var t := Tables(keyRows - {row.value}, keyIndex - {id}, ClearReferences(assocRows, row.value), assocIndex, ntpConfig, vrf, nextUuid);
      ghost var d := Db(db.keys - {id}, ClearKey(db.assocs, id), db.auth);
      ShowsDeleteKey(Fields(), db, row.value);
      assert Shows(t, d);
      assocRows := ClearReferences(assocRows, row.value);
      keyRows, keyIndex := keyRows - {row.value}, t.keyIndex;
      db := d;
      assert Fields() == t;
      outcome := Success;
    }

    /** `vtysh_ovsdb_ntp_trusted_key_set` */
    method TrustedKeySet(key: string, noForm: bool) returns (outcome: Outcome)
      requires Valid()
      modifies `keyRows, `keyIndex, `nextUuid, `db
      ensures Valid() && (db, outcome) == Apply(env, old(db), TrustedKey(key, !noForm))
      ensures Statuses() == old(Statuses())
    {
      var sane, row := SanitizeAuthKey(Some(key), true, None);
      if sane != Success {
        return sane;
      }
      ShowsFresh(Fields(), db);
      PutKey(row.value, keyRows[row.value].(trust := !noForm));
      outcome := Success;
    }

    /** The key row that belongs to the typed key id. */
    ghost predicate KeyRowFor(p: ServerParams, keyRow: Option<Uuid>)
      reads this
    {
      p.keyId.Some? ==> keyRow.Some? && keyRow.value in keyRows && keyRows[keyRow.value].keyId == Atoi(p.keyId.value)
    }

    /** `ntp_server_sanitize_parameters` */
    method SanitizeServer(p: ServerParams) returns (outcome: Outcome, keyRow: Option<Uuid>)
      requires Valid()
      ensures outcome == CheckServer(env, db, p.serverName, p.version, p.keyId)
      ensures outcome == Success ==> KeyRowFor(p, keyRow)
    {
      keyRow := None;
      outcome := SanitizeName(env, p.serverName);
      if outcome != Success {
        return;
      }
      outcome, keyRow := SanitizeAuthKey(p.keyId, true, None);
      if outcome != Success {
        return;
      }
      outcome := SanitizeVersion(p.version);
    }

    /** `ntp_server_check_max_number_of_servers`: false when the table is full. */
    method CheckMaxNumberOfServers() returns (room: bool)
      requires Valid()
      ensures room <==> |db.assocs| < MAX_SERVERS
    {
      var counter := 0;
      var todo := assocRows.Keys;
      while todo != {}
        invariant todo <= assocRows.Keys && counter + |todo| == |assocRows.Keys|
        decreases todo
      {
        var u :| u in todo;
        todo := todo - {u};
        counter := counter + 1;
      }
      ShowsCount(Fields(), db);
      room := counter < MAX_SERVERS;
    }

    /**
     `vtysh_ovsdb_ntp_server_set`.  The row is looked up by the vrf name given and inserted with the first
     vrf row: only when the names agree does a repeated command find the row it stored before.
     */
    method ServerSet(p: ServerParams) returns (outcome: Outcome)
      requires Valid()
      requires p.noForm ==> p.version.None? && p.keyId.None? && !p.prefer
      modifies `assocRows, `assocIndex, `nextUuid, `db
      ensures outcome == CheckServer(env, old(db), p.serverName, p.version, p.keyId)
      ensures p.vrfName == vrf || p.serverName !in old(db).assocs ==>
        Valid() && (db, outcome) == Apply(env, old(db), CommandOf(p))
        && Statuses() == StatusAfterCommand(old(db), db, old(Statuses()), blank)
      ensures p.vrfName != vrf && (p.noForm || |old(db).assocs| >= MAX_SERVERS) ==> assocRows == old(assocRows)
      ensures p.vrfName != vrf ==> KeepsRows(old(assocRows), assocRows)
      ensures outcome == Success && !p.noForm && |old(db).assocs| < MAX_SERVERS ==>
        (|RowsOf(assocRows, p.serverName)| == 1 <==> p.vrfName == vrf || p.serverName !in old(db).assocs)
    {
      var sane, keyRow := SanitizeServer(p);
      if sane != Success {
        NothingDoneKeepsStatus(Fields(), db, blank);
        return sane;
      }
      StoreServer(p, keyRow);
      outcome := Success;
    }

    /** The transaction proper, for parameters that passed the checks. */
    method StoreServer(p: ServerParams, keyRow: Option<Uuid>)
      requires Valid() && KeyRowFor(p, keyRow)
      modifies `assocRows, `assocIndex, `nextUuid, `db
      ensures p.vrfName == vrf || p.serverName !in old(db).assocs ==>
        Valid() && db == Cli.StoreServer(old(db), CommandOf(p))
        && Statuses() == StatusAfterCommand(old(db), db, old(Statuses()), blank)
      ensures p.vrfName != vrf && (p.noForm || |old(db).assocs| >= MAX_SERVERS) ==> assocRows == old(assocRows)
      ensures p.vrfName != vrf ==> KeepsRows(old(assocRows), assocRows)
      ensures !p.noForm && |old(db).assocs| < MAX_SERVERS ==>
        (|RowsOf(assocRows, p.serverName)| == 1 <==> p.vrfName == vrf || p.serverName !in old(db).assocs)
    {
      NothingDoneKeepsStatus(Fields(), db, blank);
      var row := GetAssoc(p.vrfName, p.serverName);
      if row.None? {
        if !p.noForm {
          var room := CheckMaxNumberOfServers();
          if room {
            InsertAssoc(p, keyRow);
          }
        } else if p.serverName !in db.assocs {
          assert db.assocs - {p.serverName} == db.assocs;
        }
      } else if p.noForm {
        DeleteAssoc(row.value);
      } else {
        ReplaceAssoc(row.value, p, keyRow);
      }
    }

    /** What is inserted: the immutable columns and the defaults first, then the options given. */
    method FirstRow(p: ServerParams, keyRow: Option<Uuid>) returns (row: AssocRecord)
      requires KeyRowFor(p, keyRow)
      ensures row.address == p.serverName && row.vrf == vrf && row.status == blank && RowOk(row, keyRows)
      ensures InfoOf(row, keyRows) == Overlay(DEFAULT_ASSOC, p.prefer, p.version, p.keyId)
    {
      row := NewRow(p.serverName, vrf, blank, keyRows);
      row := OverlayRow(row, keyRows, p, keyRow);
    }

    /** A new row, whether or not another one has the address. */
    method InsertAssoc(p: ServerParams, keyRow: Option<Uuid>)
      requires Valid() && KeyRowFor(p, keyRow)
      modifies `assocRows, `assocIndex, `nextUuid, `db
      ensures KeepsRows(old(assocRows), assocRows)
      ensures |RowsOf(assocRows, p.serverName)| == if p.serverName in old(db).assocs then 2 else 1
      ensures p.serverName !in old(db).assocs ==>
        Valid() && Statuses() == StatusAfterCommand(old(db), db, old(Statuses()), blank)
        && db == old(db).(assocs := old(db).assocs[p.serverName := Overlay(DEFAULT_ASSOC, p.prefer, p.version, p.keyId)])
    {
      ShowsFresh(Fields(), db);
      StatusViewKeys(Fields(), db);
      var row := FirstRow(p, keyRow);
      OneMoreRow(Fields(), db, nextUuid, row);
      StatusInserted(db, db.(assocs := db.assocs[p.serverName := InfoOf(row, keyRows)]), Statuses(), blank, p.serverName);
      PutRow(nextUuid, row);
    }

    /** An existing row: address, vrf and status stay, the options given replace. */
    method ReplaceAssoc(u: Uuid, p: ServerParams, keyRow: Option<Uuid>)
      requires Valid() && RowOfName(u, p.serverName) && KeyRowFor(p, keyRow)
      modifies `assocRows, `assocIndex, `nextUuid, `db
      ensures Valid()
      ensures db == old(db).(assocs :=
        old(db).assocs[p.serverName := Overlay(old(db).assocs[p.serverName], p.prefer, p.version, p.keyId)])
      ensures u in assocRows && assocRows[u].status == old(assocRows[u].status) && assocRows[u].vrf == old(assocRows[u].vrf)
      ensures Statuses() == StatusAfterCommand(old(db), db, old(Statuses()), blank)
      ensures |RowsOf(assocRows, p.serverName)| == 1
    {
      var row := OverlayRow(assocRows[u], keyRows, p, keyRow);
      ShowsFresh(Fields(), db);
      ShowsAssocAt(Fields(), db, p.serverName);
      StatusViewKeys(Fields(), db);
      assert Statuses()[p.serverName] == assocRows[u].status;
      PutRow(u, row);
      StatusStays(old(db), db, old(Statuses()), blank);
      OneRow(Fields(), db, p.serverName);
    }

    /** Stores a row: a new one under an unused identity, or new contents of one that is there. */
    method PutRow(u: Uuid, row: AssocRecord)
      requires Valid() && RowOk(row, keyRows) && row.vrf == vrf
      requires u != nextUuid ==> u in assocRows && assocRows[u].address == row.address
      modifies `assocRows, `assocIndex, `nextUuid, `db
      ensures assocRows == old(assocRows)[u := row]
      ensures u in old(assocRows) || row.address !in old(db).assocs ==>
        Valid() && Statuses() == old(Statuses())[row.address := row.status]
        && db == old(db).(assocs := old(db).assocs[row.address := InfoOf(row, old(keyRows))])
    {
      ShowsFresh(Fields(), db);
      ghost var t, d := WithRow(Fields(), u, row), db.(assocs := db.assocs[row.address := InfoOf(row, keyRows)]);
      RowStored(Fields(), db, u, row);
      assocRows, assocIndex, nextUuid := assocRows[u := row], t.assocIndex, NextAfter(u, nextUuid);
      db := d;
      assert Fields() == t;
    }

    method DeleteAssoc(u: Uuid)
      requires Valid() && u in assocRows
      modifies `assocRows, `assocIndex, `db
      ensures Valid() && db == old(db).(assocs := old(db).assocs - {old(assocRows[u].address)})
      ensures Statuses() == StatusAfterCommand(old(db), db, old(Statuses()), blank)
    {
      ghost var name := assocRows[u].address;
      ghost var t := Tables(keyRows, keyIndex, assocRows - {u}, assocIndex - {name}, ntpConfig, vrf, nextUuid);
      ghost var d := db.(assocs := db.assocs - {name});
      ShowsDeleteAssoc(Fields(), db, u);
      StatusViewDelete(Fields(), db, u);
      StatusViewKeys(Fields(), db);
      StatusDeleted(db, d, Statuses(), blank, name);
      assert Shows(t, d);
      assocRows, assocIndex := assocRows - {u}, t.assocIndex;
      db := d;
      assert Fields() == t;
    }

    /** One configuration command, dispatched to its handler. */
    method Execute(c: Command) returns (outcome: Outcome)
      requires Valid()
      modifies this
      ensures Valid() && (db, outcome) == Apply(env, old(db), c)
      ensures Statuses() == StatusAfterCommand(old(db), db, old(Statuses()), blank)
    {
      StatusViewKeys(Fields(), db);
      KeyCommandsKeepStatus(env, db, c, Statuses(), blank);
      match c
      case Server(name, prefer, version, keyId) =>
        outcome := ServerSet(ServerParams(false, vrf, name, prefer, version, keyId));
      case NoServer(name) =>
        outcome := ServerSet(ServerParams(true, vrf, name, false, None, None));
      case AuthKey(key, password) => outcome := AuthKeySet(key, password);
      case NoAuthKey(key) => outcome := AuthKeyUnset(key);
      case TrustedKey(key, trust) => outcome := TrustedKeySet(key, !trust);
      case AuthEnable(enable) => outcome := AuthEnableSet(!enable);
    }

    /** One status snapshot: every row that it names takes its new status. */
    method WriteStatuses(associations: map<string, S.Column>)
      requires Valid()
      modifies `assocRows
      ensures Valid() && db == old(db) && assocRows == Written(old(assocRows), associations)
      ensures Statuses() == StatusAfterReport(old(Statuses()), associations)
    {
      ShowsWritten(Fields(), db, associations);
      StatusViewWritten(Fields(), db, associations);
      assocRows := Written(assocRows, associations);
    }

    /**
     Commands and snapshots in any order: the configuration is what the commands alone make of it, and the
     statuses are what the snapshots report of the rows that the commands leave.
     */
    method Interleaved(events: seq<Event>)
      requires Valid()
      modifies this
      ensures Valid() && db == Run(env, old(db), CommandsOf(events))
      ensures Statuses() == StatusRun(env, old(db), old(Statuses()), blank, events)
    {
      for i := 0 to |events|
        invariant Valid()
        invariant Run(env, db, CommandsOf(events[i..])) == Run(env, old(db), CommandsOf(events))
        invariant StatusRun(env, db, Statuses(), blank, events[i..]) == StatusRun(env, old(db), old(Statuses()), blank, events)
      {
        FirstEvent(env, db, Statuses(), blank, events[i..]);
        assert events[i..][1..] == events[i + 1..];
        match events[i]
        case Typed(c) => var _ := Execute(c);
        case Polled(associations) => WriteStatuses(associations);
      }
    }

    /** A whole session: the tables end as the transaction machine says. */
    method Session(cs: seq<Command>)
      requires Valid()
      modifies this
      ensures Valid() && db == Run(env, old(db), cs)
    {
      ghost var start := db;
      for i := 0 to |cs|
        invariant Valid() && db == Run(env, start, cs[..i])
      {
        var _ := Execute(cs[i]);
        assert cs[..i + 1] == cs[..i] + [cs[i]];
        RunAppend(env, start, cs[..i], [cs[i]]);
        assert [cs[i]][1..] == [];
      }
      assert cs[..|cs|] == cs;
    }

    /** `vtysh_config_context_ntp_clientcallback`: the running configuration, in some row order. */
    method PrintRunningConfig() returns (lines: seq<string>)
      requires Valid()
      ensures exists ids, names :: PrintedAs(db, ids, names, lines)
    {
      assert Unfolded(TableLayer, 0);
      var keyOrder := Walk(keyRows.Keys);
      ghost var ids := IdsOf(keyOrder, keyRows);
      IdsEnumerate(keyOrder, keyRows, keyIndex, nextUuid);
      var keyLines := PrintKeyRows(keyOrder, keyRows, db.keys);
      var assocOrder := Walk(assocRows.Keys);
      ghost var names := NamesOf(assocOrder, assocRows);
      NamesEnumerate(assocOrder, assocRows, assocIndex, keyRows, vrf, nextUuid);
      var assocLines := PrintAssocRows(assocOrder, assocRows, keyRows, db.assocs);
      lines := keyLines + assocLines;
      assert Unfolded(PlanLayer, 0);
      PrintAllAppend(AllKeyCommands(ids, db.keys), AllAssocCommands(names, db.assocs));
      assert PrintedAs(db, ids, names, lines);
    }
  }
}
