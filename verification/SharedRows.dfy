/**
 The association rows that two processes write: the command line writes the configuration, the
 status writer writes `association_status`, in any interleaving.
 */
module SharedRows {
  import opened Projection
  import opened Cli
  import opened TableRows
  import opened Unfolding
  import S = StatusSync

  /** A configuration command, or a snapshot of statuses by address. */
  datatype Event = Typed(c: Command) | Polled(associations: map<string, S.Column>)

  function WithStatus(row: AssocRecord, associations: map<string, S.Column>): AssocRecord {
    if row.address in associations then row.(status := associations[row.address]) else row
  }

  /** The rows after one snapshot. */
  function Written(rows: map<Uuid, AssocRecord>, associations: map<string, S.Column>): map<Uuid, AssocRecord> {
    map u | u in rows :: WithStatus(rows[u], associations)
  }

  /** The status of each address. */
  function StatusView(rows: map<Uuid, AssocRecord>, index: map<string, Uuid>): map<string, S.Column> {
    map n | n in index && index[n] in rows :: rows[index[n]].status
  }

  // ---------- what a snapshot writes ----------

  lemma AssocsIndexedWritten(rows: map<Uuid, AssocRecord>, index: map<string, Uuid>, keyRows: map<Uuid, KeyRow>,
                             vrf: string, next: Uuid, associations: map<string, S.Column>)
    requires AssocsIndexed(rows, index, keyRows, vrf, next)
    ensures AssocsIndexed(Written(rows, associations), index, keyRows, vrf, next)
  {
    assert Unfolded(PlanLayer, 0);
  }

  lemma AssocViewWritten(rows: map<Uuid, AssocRecord>, index: map<string, Uuid>, keyRows: map<Uuid, KeyRow>,
                         associations: map<string, S.Column>)
    ensures AssocView(Written(rows, associations), index, keyRows) == AssocView(rows, index, keyRows)
  {
  }

  /** A snapshot does not show in the configuration. */
  lemma ShowsWritten(t: Tables, db: Db, associations: map<string, S.Column>)
    requires Shows(t, db)
    ensures Shows(t.(assocRows := Written(t.assocRows, associations)), db)
  {
    assert Unfolded(TableLayer, 0);
    AssocsIndexedWritten(t.assocRows, t.assocIndex, t.keyRows, t.vrf, t.next, associations);
    AssocViewWritten(t.assocRows, t.assocIndex, t.keyRows, associations);
  }

  lemma StatusViewKeys(t: Tables, db: Db)
    requires Shows(t, db)
    ensures StatusView(t.assocRows, t.assocIndex).Keys == db.assocs.Keys
  {
    ShowsAssocs(t, db);
  }

  lemma StatusViewPut(t: Tables, db: Db, u: Uuid, row: AssocRecord)
    requires Shows(t, db)
    requires if u in t.assocRows then t.assocRows[u].address == row.address else row.address !in t.assocIndex
    ensures StatusView(t.assocRows[u := row], t.assocIndex[row.address := u])
         == StatusView(t.assocRows, t.assocIndex)[row.address := row.status]
  {
    forall n | n in t.assocIndex && n != row.address
      ensures t.assocIndex[n] in t.assocRows && t.assocIndex[n] != u
    {
      ShowsAssocAt(t, db, n);
    }
  }

  /** The tables with a row stored under `u`. */
  function WithRow(t: Tables, u: Uuid, row: AssocRecord): Tables {
    t.(assocRows := t.assocRows[u := row], assocIndex := t.assocIndex[row.address := u], next := NextAfter(u, t.next))
  }

  lemma RowStored(t: Tables, db: Db, u: Uuid, row: AssocRecord)
    requires Shows(t, db) && RowOk(row, t.keyRows) && row.vrf == t.vrf && u <= t.next
    requires u in t.assocRows ==> t.assocRows[u].address == row.address
    ensures u in t.assocRows || row.address !in db.assocs ==>
      && Shows(WithRow(t, u, row), db.(assocs := db.assocs[row.address := InfoOf(row, t.keyRows)]))
      && StatusView(WithRow(t, u, row).assocRows, WithRow(t, u, row).assocIndex)
         == StatusView(t.assocRows, t.assocIndex)[row.address := row.status]
  {
    ShowsAssocAt(t, db, row.address);
    if u in t.assocRows || row.address !in db.assocs {
      ShowsPutAssoc(t, db, u, row);
      StatusViewPut(t, db, u, row);
    }
  }

  lemma StatusViewDelete(t: Tables, db: Db, u: Uuid)
    requires Shows(t, db) && u in t.assocRows
    ensures var name := t.assocRows[u].address;
      StatusView(t.assocRows - {u}, t.assocIndex - {name}) == StatusView(t.assocRows, t.assocIndex) - {name}
  {
    forall n | n in t.assocIndex && n != t.assocRows[u].address
      ensures t.assocIndex[n] in t.assocRows && t.assocIndex[n] != u
    {
      ShowsAssocAt(t, db, n);
    }
  }

  function StatusAfterReport(statuses: map<string, S.Column>, associations: map<string, S.Column>): map<string, S.Column> {
    map n | n in statuses :: if n in associations then associations[n] else statuses[n]
  }

  lemma StatusViewWritten(t: Tables, db: Db, associations: map<string, S.Column>)
    requires Shows(t, db)
    ensures StatusView(Written(t.assocRows, associations), t.assocIndex)
         == StatusAfterReport(StatusView(t.assocRows, t.assocIndex), associations)
  {
    forall n | n in t.assocIndex
      ensures t.assocIndex[n] in t.assocRows && t.assocRows[t.assocIndex[n]].address == n
    {
      ShowsAssocAt(t, db, n);
    }
  }

  /** The rows in an order of the table, as the status writer walks them. */
  function Walked(order: seq<Uuid>, rows: map<Uuid, AssocRecord>): (r: seq<S.AssocRow>)
    requires forall i :: 0 <= i < |order| ==> order[i] in rows
    ensures |r| == |order|
  {
    seq(|order|, i requires 0 <= i < |order| => S.AssocRow(rows[order[i]].address, rows[order[i]].status))
  }

  /** The snapshot written here is the status writer's: the first row with an address is its only row. */
  lemma WrittenIsRowsAfter(t: Tables, db: Db, order: seq<Uuid>, associations: map<string, S.Column>)
    requires Shows(t, db) && forall i :: 0 <= i < |order| ==> order[i] in t.assocRows
    requires forall i, j :: 0 <= i < j < |order| ==> order[i] != order[j]
    ensures Walked(order, Written(t.assocRows, associations))
         == S.RowsAfter(Walked(order, t.assocRows), associations, associations.Keys)
  {
    var rows := Walked(order, t.assocRows);
    forall i | 0 <= i < |order|
      ensures S.FirstWithAddress(rows, i)
    {
      ShowsAssocAt(t, db, rows[i].address);
    }
  }

  /** The rows with an address, in whatever vrf. */
  function RowsOf(rows: map<Uuid, AssocRecord>, name: string): set<Uuid> {
    set u | u in rows && rows[u].address == name
  }

  predicate KeepsRows(before: map<Uuid, AssocRecord>, after: map<Uuid, AssocRecord>) {
    forall u :: u in before ==> u in after && after[u] == before[u]
  }

  lemma OneRow(t: Tables, db: Db, name: string)
    requires Shows(t, db) && name in db.assocs
    ensures |RowsOf(t.assocRows, name)| == 1
  {
    ShowsAssocAt(t, db, name);
    assert RowsOf(t.assocRows, name) == {t.assocIndex[name]};
  }

  lemma NoRow(t: Tables, db: Db, name: string)
    requires Shows(t, db) && name !in db.assocs
    ensures RowsOf(t.assocRows, name) == {}
  {
    ShowsAssocAt(t, db, name);
  }

  lemma RowsOfPut(rows: map<Uuid, AssocRecord>, u: Uuid, row: AssocRecord)
    requires u !in rows
    ensures RowsOf(rows[u := row], row.address) == RowsOf(rows, row.address) + {u}
    ensures u !in RowsOf(rows, row.address)
  {
  }

  lemma OneMoreRow(t: Tables, db: Db, u: Uuid, row: AssocRecord)
    requires Shows(t, db) && u !in t.assocRows
    ensures |RowsOf(t.assocRows[u := row], row.address)| == if row.address in db.assocs then 2 else 1
  {
    RowsOfPut(t.assocRows, u, row);
    if row.address in db.assocs {
      OneRow(t, db, row.address);
    } else {
      NoRow(t, db, row.address);
    }
  }

  // ---------- commands and snapshots in any order ----------

  /** A command gives new rows the status `blank` and leaves the others theirs. */
  function StatusAfterCommand(before: Db, after: Db, statuses: map<string, S.Column>, blank: S.Column): map<string, S.Column> {
    map n | n in after.assocs :: if n in before.assocs && n in statuses then statuses[n] else blank
  }

  lemma StatusInserted(before: Db, after: Db, statuses: map<string, S.Column>, blank: S.Column, name: string)
    requires statuses.Keys == before.assocs.Keys && after.assocs.Keys == before.assocs.Keys + {name}
    ensures name !in before.assocs ==> StatusAfterCommand(before, after, statuses, blank) == statuses[name := blank]
  {
  }

  lemma StatusStays(before: Db, after: Db, statuses: map<string, S.Column>, blank: S.Column)
    requires statuses.Keys == before.assocs.Keys == after.assocs.Keys
    ensures StatusAfterCommand(before, after, statuses, blank) == statuses
  {
  }

  lemma NothingDoneKeepsStatus(t: Tables, db: Db, blank: S.Column)
    requires Shows(t, db)
    ensures var statuses := StatusView(t.assocRows, t.assocIndex); StatusAfterCommand(db, db, statuses, blank) == statuses
  {
    StatusViewKeys(t, db);
    StatusStays(db, db, StatusView(t.assocRows, t.assocIndex), blank);
  }

  /** No command about keys or authentication adds or removes an association. */
  lemma KeyCommandsKeepStatus(env: Env, db: Db, c: Command, statuses: map<string, S.Column>, blank: S.Column)
    requires statuses.Keys == db.assocs.Keys
    ensures c.Server? || c.NoServer? || StatusAfterCommand(db, Apply(env, db, c).0, statuses, blank) == statuses
  {
    if !c.Server? && !c.NoServer? {
      StatusStays(db, Apply(env, db, c).0, statuses, blank);
    }
  }

  lemma StatusDeleted(before: Db, after: Db, statuses: map<string, S.Column>, blank: S.Column, name: string)
    requires statuses.Keys == before.assocs.Keys && after.assocs.Keys == before.assocs.Keys - {name}
    ensures StatusAfterCommand(before, after, statuses, blank) == statuses - {name}
  {
  }

  function DbAfter(env: Env, db: Db, e: Event): Db {
    match e
    case Typed(c) => Apply(env, db, c).0
    case Polled(_) => db
  }

  function StatusAfter(env: Env, db: Db, statuses: map<string, S.Column>, blank: S.Column, e: Event): map<string, S.Column> {
    match e
    case Typed(c) => StatusAfterCommand(db, Apply(env, db, c).0, statuses, blank)
    case Polled(associations) => StatusAfterReport(statuses, associations)
  }

  function StatusRun(env: Env, db: Db, statuses: map<string, S.Column>, blank: S.Column, events: seq<Event>): map<string, S.Column>
    decreases |events|
  {
    if events == [] then statuses
    else StatusRun(env, DbAfter(env, db, events[0]), StatusAfter(env, db, statuses, blank, events[0]), blank, events[1..])
  }

  /** The commands among the events. */
  function CommandsOf(events: seq<Event>): seq<Command> {
    if events == [] then []
    else (match events[0] case Typed(c) => [c] case Polled(_) => []) + CommandsOf(events[1..])
  }

  /** One event more. */
  lemma {:induction false} FirstEvent(env: Env, db: Db, statuses: map<string, S.Column>, blank: S.Column, events: seq<Event>)
    requires events != []
    ensures Run(env, db, CommandsOf(events)) == Run(env, DbAfter(env, db, events[0]), CommandsOf(events[1..]))
    ensures StatusRun(env, db, statuses, blank, events)
         == StatusRun(env, DbAfter(env, db, events[0]), StatusAfter(env, db, statuses, blank, events[0]), blank, events[1..])
  {
    var rest := CommandsOf(events[1..]);
    match events[0]
    case Typed(c) => assert ([c] + rest)[1..] == rest;
    case Polled(_) => assert [] + rest == rest;
  }

  /** The association is there before and after every event. */
  predicate Lives(env: Env, db: Db, events: seq<Event>, name: string)
    decreases |events|
  {
    name in db.assocs && (events != [] ==> Lives(env, DbAfter(env, db, events[0]), events[1..], name))
  }

  /** The last status that a snapshot reports for the address. */
  function LastReport(events: seq<Event>, name: string, status: S.Column): S.Column
    decreases |events|
  {
    if events == [] then status
    else
      LastReport(events[1..], name,
                 if events[0].Polled? && name in events[0].associations then events[0].associations[name] else status)
  }

  /** However often a living association is overlaid meanwhile, its status is the last one reported. */
  lemma {:induction false} CommandsKeepStatus(env: Env, db: Db, statuses: map<string, S.Column>, blank: S.Column,
                                              events: seq<Event>, name: string)
    requires name in statuses && Lives(env, db, events, name)
    ensures name in StatusRun(env, db, statuses, blank, events)
    ensures StatusRun(env, db, statuses, blank, events)[name] == LastReport(events, name, statuses[name])
    decreases |events|
  {
    if events != [] {
      var db', statuses' := DbAfter(env, db, events[0]), StatusAfter(env, db, statuses, blank, events[0]);
      assert name in db'.assocs;
      CommandsKeepStatus(env, db', statuses', blank, events[1..], name);
    }
  }

  /** A new association starts with the blank status and keeps it until the first report. */
  lemma NewRowIsBlank(env: Env, db: Db, statuses: map<string, S.Column>, blank: S.Column, c: Command, events: seq<Event>, name: string)
    requires name !in db.assocs && Lives(env, Apply(env, db, c).0, events, name)
    ensures var r := StatusRun(env, db, statuses, blank, [Typed(c)] + events);
      name in r && r[name] == LastReport(events, name, blank)
  {
    var all := [Typed(c)] + events;
    assert all[1..] == events;
    var db', statuses' := DbAfter(env, db, all[0]), StatusAfter(env, db, statuses, blank, all[0]);
    assert name in db'.assocs;
    CommandsKeepStatus(env, db', statuses', blank, events, name);
  }
}
