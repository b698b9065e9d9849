/** The running-configuration printer over database rows. */
module ConfigPrinter {
  import opened Text
  import opened Enumerations
  import opened Projection
  import opened Cli
  import opened CommandLine
  import opened RunningConfig
  import opened TableRows
  import opened Unfolding

  /** The lines printed for one key row. */
  method PrintKeyRow(row: KeyRow) returns (lines: seq<string>)
    ensures lines == PrintAll(KeyCommands(row.keyId, KeyInfoOf(row)))
  {
    ghost var a, t := AuthKey(Decimal(row.keyId), row.password), TrustedKey(Decimal(row.keyId), true);
    PrintOne(a);
    PrintOne(t);
    lines := [Line(["ntp", "authentication-key", Decimal(row.keyId), "md5", row.password])];
    if row.trust {
      PrintAllAppend([a], [t]);
      lines := lines + [Line(["ntp", "trusted-key", Decimal(row.keyId)])];
    }
  }

  /** The line printed for one association row, its options collected in a buffer first. */
  method PrintAssocRow(row: AssocRecord, keyRows: map<Uuid, KeyRow>) returns (line: string)
    requires row.key.Some? ==> row.key.value in keyRows
    ensures line == Print(AssocCommand(row.address, InfoOf(row, keyRows)))
  {
    ghost var c := AssocCommand(row.address, InfoOf(row, keyRows));
    ghost var key, version := OptionalWords("key-id", c.keyId), OptionalWords("version", c.version);
    ghost var prefer := if c.prefer then ["prefer"] else [];
    var strTemp := "";
    if row.key.Some? {
      strTemp := Spaced(["key-id", Decimal(keyRows[row.key.value].keyId)]);
    }
    assert strTemp == Spaced(key);
    var buf := Attribute(row.attributes, Version, DEFAULT_VERSION);
    if !(DEFAULT_VERSION <= buf) {
      strTemp := strTemp + Spaced(["version", buf]);
    }
    SpacedAppend(key, version);
    assert strTemp == Spaced(key + version);
    if PreferOf(row.attributes) {
      strTemp := strTemp + Spaced(["prefer"]);
    }
    SpacedAppend(key + version, prefer);
    line := Line(["ntp", "server", row.address]) + strTemp;
    LineAppend(["ntp", "server", row.address], key + version + prefer);
  }

  /** The ids of the rows that a walk visits, in its order. */
  function IdsOf(order: seq<Uuid>, rows: map<Uuid, KeyRow>): seq<int>
    requires forall u :: u in order ==> u in rows
  {
    seq(|order|, i requires 0 <= i < |order| => rows[order[i]].keyId)
  }

  lemma IdsEnumerate(order: seq<Uuid>, rows: map<Uuid, KeyRow>, index: map<int, Uuid>, next: Uuid)
    requires KeysIndexed(rows, index, next) && Enumerates(order, rows.Keys)
    ensures Enumerates(IdsOf(order, rows), KeyView(rows, index).Keys)
    ensures forall u :: u in order ==>
      && rows[u].keyId in KeyView(rows, index)
      && KeyView(rows, index)[rows[u].keyId] == KeyInfoOf(rows[u])
  {
    assert Unfolded(PlanLayer, 0);
    var ids := IdsOf(order, rows);
    forall id | id in index
      ensures id in ids
    {
      var i :| 0 <= i < |order| && order[i] == index[id];
      assert ids[i] == id;
    }
    forall i, j | 0 <= i < j < |ids|
      ensures ids[i] != ids[j]
    {
      assert index[ids[i]] == order[i] && index[ids[j]] == order[j];
    }
  }

  function NamesOf(order: seq<Uuid>, rows: map<Uuid, AssocRecord>): seq<string>
    requires forall u :: u in order ==> u in rows
  {
    seq(|order|, i requires 0 <= i < |order| => rows[order[i]].address)
  }

  /** The row under `u` is what the association map says about its address. */
  predicate PrintableRow(rows: map<Uuid, AssocRecord>, keyRows: map<Uuid, KeyRow>, assocs: map<string, AssocInfo>, u: Uuid) {
    && u in rows && (rows[u].key.Some? ==> rows[u].key.value in keyRows)
    && rows[u].address in assocs && assocs[rows[u].address] == InfoOf(rows[u], keyRows)
  }

  lemma NamesEnumerate(order: seq<Uuid>, rows: map<Uuid, AssocRecord>, index: map<string, Uuid>, keyRows: map<Uuid, KeyRow>, vrf: string, next: Uuid)
    requires AssocsIndexed(rows, index, keyRows, vrf, next) && Enumerates(order, rows.Keys)
    ensures Enumerates(NamesOf(order, rows), AssocView(rows, index, keyRows).Keys)
    ensures forall u :: u in order ==> PrintableRow(rows, keyRows, AssocView(rows, index, keyRows), u)
  {
    assert Unfolded(PlanLayer, 0);
    var names := NamesOf(order, rows);
    forall n | n in index
      ensures n in names
    {
      var i :| 0 <= i < |order| && order[i] == index[n];
      assert names[i] == n;
    }
    forall i, j | 0 <= i < j < |names|
      ensures names[i] != names[j]
    {
      assert index[names[i]] == order[i] && index[names[j]] == order[j];
    }
  }

  /** `lines` are the commands of the keys `ids`; unfolded on demand. */
  ghost predicate KeysPrinted(ids: seq<int>, keys: map<int, KeyInfo>, lines: seq<string>) {
    forall k {:trigger Unfolded(PlanLayer, k)} :: Unfolded(PlanLayer, k) ==>
      && (forall id :: id in ids ==> id in keys)
      && lines == PrintAll(AllKeyCommands(ids, keys))
  }

  /** One more key row printed. */
  lemma PrintedKey(ids: seq<int>, id: int, keys: map<int, KeyInfo>, lines: seq<string>, printed: seq<string>)
    requires id in keys && KeysPrinted(ids, keys, lines)
    requires printed == PrintAll(KeyCommands(id, keys[id]))
    ensures KeysPrinted(ids + [id], keys, lines + printed)
  {
    assert Unfolded(PlanLayer, 0);
    AllKeyCommandsAppend(ids, id, keys);
    PrintAllAppend(AllKeyCommands(ids, keys), KeyCommands(id, keys[id]));
  }

  /** `lines` are the commands of the associations `names`; unfolded on demand. */
  ghost predicate AssocsPrinted(names: seq<string>, assocs: map<string, AssocInfo>, lines: seq<string>) {
    forall k {:trigger Unfolded(PlanLayer, k)} :: Unfolded(PlanLayer, k) ==>
      && (forall n :: n in names ==> n in assocs)
      && lines == PrintAll(AllAssocCommands(names, assocs))
  }

  /** One more association row printed. */
  lemma PrintedAssoc(names: seq<string>, name: string, assocs: map<string, AssocInfo>, lines: seq<string>, printed: string)
    requires name in assocs && AssocsPrinted(names, assocs, lines)
    requires printed == Print(AssocCommand(name, assocs[name]))
    ensures AssocsPrinted(names + [name], assocs, lines + [printed])
  {
    assert Unfolded(PlanLayer, 0);
    var c := AssocCommand(name, assocs[name]);
    AllAssocCommandsAppend(names, name, assocs);
    PrintAllAppend(AllAssocCommands(names, assocs), [c]);
    PrintOne(c);
  }

  method PrintKeyRows(order: seq<Uuid>, rows: map<Uuid, KeyRow>, ghost keys: map<int, KeyInfo>) returns (lines: seq<string>)
    requires forall u :: u in order ==> u in rows && rows[u].keyId in keys && keys[rows[u].keyId] == KeyInfoOf(rows[u])
    ensures KeysPrinted(IdsOf(order, rows), keys, lines)
  {
    lines := [];
    ghost var ids := [];
    var i := 0;
    while i < |order|
      invariant 0 <= i <= |order| && ids == IdsOf(order, rows)[..i]
      invariant KeysPrinted(ids, keys, lines)
    {
      var row := rows[order[i]];
      var printed := PrintKeyRow(row);
      PrintedKey(ids, row.keyId, keys, lines, printed);
      lines, ids := lines + printed, ids + [row.keyId];
      i := i + 1;
    }
    assert ids == IdsOf(order, rows);
  }

  /** One round of the association loop. */
  method PrintNextRow(u: Uuid, rows: map<Uuid, AssocRecord>, keyRows: map<Uuid, KeyRow>,
                      ghost names: seq<string>, ghost assocs: map<string, AssocInfo>, lines: seq<string>)
    returns (more: seq<string>)
    requires u in rows && PrintableRow(rows, keyRows, assocs, u) && AssocsPrinted(names, assocs, lines)
    ensures AssocsPrinted(names + [rows[u].address], assocs, more)
  {
    var printed := PrintAssocRow(rows[u], keyRows);
    PrintedAssoc(names, rows[u].address, assocs, lines, printed);
    more := lines + [printed];
  }

  method PrintAssocRows(order: seq<Uuid>, rows: map<Uuid, AssocRecord>, keyRows: map<Uuid, KeyRow>, ghost assocs: map<string, AssocInfo>)
    returns (lines: seq<string>)
    requires forall u :: u in order ==> u in rows && PrintableRow(rows, keyRows, assocs, u)
    ensures AssocsPrinted(NamesOf(order, rows), assocs, lines)
  {
    lines := [];
    ghost var names := [];
    var i := 0;
    while i < |order|
      invariant 0 <= i <= |order| && names == NamesOf(order, rows)[..i]
      invariant AssocsPrinted(names, assocs, lines)
    {
      lines := PrintNextRow(order[i], rows, keyRows, names, assocs, lines);
      names := names + [rows[order[i]].address];
      i := i + 1;
    }
    assert names == NamesOf(order, rows);
  }
}
