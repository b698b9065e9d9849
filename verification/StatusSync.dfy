/**
 The status writer: a separate process takes snapshots from a first-in first-out queue
 and writes them into the association table and the System table, one transaction a
 snapshot.  Rows are found by walking the table to the first row with the address.
 */
module StatusSync {
  import opened Enumerations

  /** A column of string-to-string pairs, such as `association_status`. */
  type Column = map<string, string>

  datatype AssocRow = AssocRow(address: string, status: Column)

  datatype SystemRow = SystemRow(status: Column, statistics: Column)

  /** The two tables, in the order in which the process walks their rows. */
  datatype Tables = Tables(assocs: seq<AssocRow>, system: seq<SystemRow>)

  /** What the daemon puts on the queue: a snapshot, or the word that ends the process. */
  datatype Message =
    | Info(associations: map<string, Column>, statistics: Column, status: Column)
    | Shutdown

  /** How a run over a finite queue ends: stopped, waiting for more, or with an exception. */
  datatype Ending = Stopped | Waiting | Raised

  // ---------- one snapshot ----------

  /** `i` is the row a search for its own address stops at. */
  ghost predicate FirstWithAddress(rows: seq<AssocRow>, i: nat)
    requires i < |rows|
  {
    forall j :: 0 <= j < i ==> rows[j].address != rows[i].address
  }

  ghost predicate UniqueAddresses(rows: seq<AssocRow>) {
    forall i, j :: 0 <= i < j < |rows| ==> rows[i].address != rows[j].address
  }

  /** The row at `i` once every address in `named` has been looked up and its status stored. */
  ghost function RowAfter(rows: seq<AssocRow>, associations: map<string, Column>, named: set<string>, i: nat): AssocRow
    requires i < |rows| && named <= associations.Keys
  {
    if rows[i].address in named && FirstWithAddress(rows, i)
    then rows[i].(status := associations[rows[i].address])
    else rows[i]
  }

  ghost function RowsAfter(rows: seq<AssocRow>, associations: map<string, Column>, named: set<string>): (r: seq<AssocRow>)
    requires named <= associations.Keys
    ensures |r| == |rows|
    ensures forall i :: 0 <= i < |r| ==> r[i].address == rows[i].address
  {
    seq(|rows|, i requires 0 <= i < |rows| => RowAfter(rows, associations, named, i))
  }

  ghost function SystemAfter(system: seq<SystemRow>, m: Message): seq<SystemRow>
    requires system != [] && m.Info?
  {
    [SystemRow(m.status, m.statistics)] + system[1..]
  }

  ghost function Committed(t: Tables, m: Message): (r: Tables)
    requires t.system != [] && m.Info?
    ensures r.system != [] && |r.assocs| == |t.assocs|
    ensures forall i :: 0 <= i < |r.assocs| ==> r.assocs[i].address == t.assocs[i].address
  {
    Tables(RowsAfter(t.assocs, m.associations, m.associations.Keys), SystemAfter(t.system, m))
  }

  // ---------- a whole queue ----------

  /** The messages taken before the first shutdown, or all of them when there is none. */
  ghost function Live(queue: seq<Message>): (n: nat)
    ensures n <= |queue|
    ensures forall k :: 0 <= k < n ==> queue[k].Info?
    ensures n < |queue| ==> queue[n].Shutdown?
  {
    if queue == [] || queue[0].Shutdown? then 0 else 1 + Live(queue[1..])
  }

  /** The tables after the snapshots of `queue` up to a shutdown; no transaction commits without a System row. */
  ghost function Drained(t: Tables, queue: seq<Message>): (r: Tables)
    ensures |r.assocs| == |t.assocs|
    ensures forall i :: 0 <= i < |r.assocs| ==> r.assocs[i].address == t.assocs[i].address
    decreases |queue|
  {
    if queue == [] || queue[0].Shutdown? || t.system == [] then t
    else Drained(Committed(t, queue[0]), queue[1..])
  }

  ghost function EndingOf(t: Tables, queue: seq<Message>): Ending {
    if Live(queue) > 0 && t.system == [] then Raised
    else if Live(queue) < |queue| then Stopped
    else Waiting
  }

  /** A run raises at the first snapshot without a System row; otherwise it stops if a shutdown is queued, and waits if none is. */
  lemma {:induction false} EndingExactly(t: Tables, queue: seq<Message>)
    ensures var raises := t.system == [] && queue != [] && queue[0].Info?;
      EndingOf(t, queue) == if raises then Raised else if Shutdown in queue then Stopped else Waiting
    decreases |queue|
  {
    if queue != [] && queue[0].Info? {
      EndingExactly(t, queue[1..]);
      assert Shutdown in queue <==> Shutdown in queue[1..];
    }
  }

  /** `k` is the last live message that names `address`. */
  ghost predicate LastNaming(queue: seq<Message>, address: string, k: nat) {
    && k < Live(queue)
    && address in queue[k].associations
    && forall j :: k < j < Live(queue) ==> address !in queue[j].associations
  }

  lemma LastNamingTail(queue: seq<Message>, address: string, k: nat)
    requires queue != [] && queue[0].Info?
    requires 0 < k && LastNaming(queue, address, k)
    ensures LastNaming(queue[1..], address, k - 1)
  {
    forall j | k - 1 < j < Live(queue[1..]) ensures address !in queue[1..][j].associations {
      assert queue[1..][j] == queue[j + 1];
    }
  }

  lemma NotNamedTail(queue: seq<Message>, address: string, from: nat)
    requires queue != [] && queue[0].Info? && from <= 1
    requires forall j :: from <= j < Live(queue) ==> address !in queue[j].associations
    ensures forall j :: 0 <= j < Live(queue[1..]) ==> address !in queue[1..][j].associations
  {
    forall j | 0 <= j < Live(queue[1..]) ensures address !in queue[1..][j].associations {
      assert queue[1..][j] == queue[j + 1];
    }
  }

  /** Whether a row is the one its address finds does not change: addresses never do. */
  lemma FirstStaysFirst(t: Tables, m: Message, i: nat)
    requires t.system != [] && m.Info? && i < |t.assocs|
    ensures FirstWithAddress(Committed(t, m).assocs, i) <==> FirstWithAddress(t.assocs, i)
  {
  }

  /** A row that is not named by any live message, or hidden behind an earlier row with its address, keeps its status. */
  lemma {:induction false} Untouched(t: Tables, queue: seq<Message>, i: nat)
    requires i < |t.assocs|
    requires
      || !FirstWithAddress(t.assocs, i)
      || forall j :: 0 <= j < Live(queue) ==> t.assocs[i].address !in queue[j].associations
    ensures Drained(t, queue).assocs[i] == t.assocs[i]
    decreases |queue|
  {
    if queue != [] && queue[0].Info? && t.system != [] {
      var next := Committed(t, queue[0]);
      FirstStaysFirst(t, queue[0], i);
      if FirstWithAddress(t.assocs, i) {
        assert t.assocs[i].address !in queue[0].associations;
        NotNamedTail(queue, t.assocs[i].address, 0);
      }
      Untouched(next, queue[1..], i);
    }
  }

  /** The status of the row found by its address is the one in the last live message naming it. */
  lemma {:induction false} LastStatusWins(t: Tables, queue: seq<Message>, i: nat, k: nat)
    requires t.system != [] && i < |t.assocs| && FirstWithAddress(t.assocs, i)
    requires LastNaming(queue, t.assocs[i].address, k)
    ensures Drained(t, queue).assocs[i] == t.assocs[i].(status := queue[k].associations[t.assocs[i].address])
    decreases k
  {
    var next := Committed(t, queue[0]);
    FirstStaysFirst(t, queue[0], i);
    if k == 0 {
      NotNamedTail(queue, t.assocs[i].address, 1);
      Untouched(next, queue[1..], i);
    } else {
      LastNamingTail(queue, t.assocs[i].address, k);
      LastStatusWins(next, queue[1..], i, k - 1);
      assert queue[1..][k - 1] == queue[k];
    }
  }

  /** The first System row holds status and statistics of `m`, each in its own column; the other rows are those of `before`. */
  ghost predicate SystemHolds(system: seq<SystemRow>, m: Message, before: seq<SystemRow>)
    requires m.Info?
  {
    && |system| == |before| && system != []
    && system[0].status == m.status && system[0].statistics == m.statistics
    && forall i :: 0 < i < |system| ==> system[i] == before[i]
  }

  /** The first System row holds the last live message; every other System row is left alone. */
  lemma {:induction false} SystemHoldsLast(t: Tables, queue: seq<Message>)
    ensures Live(queue) == 0 || t.system == [] ==> Drained(t, queue).system == t.system
    ensures Live(queue) > 0 && t.system != [] ==>
      SystemHolds(Drained(t, queue).system, queue[Live(queue) - 1], t.system)
    decreases |queue|
  {
    if queue != [] && queue[0].Info? && t.system != [] {
      var next := Committed(t, queue[0]);
      SystemHoldsLast(next, queue[1..]);
      assert forall k :: 0 < k < |t.system| ==> next.system[k] == t.system[k];
    }
  }

  /** What follows the first shutdown has no effect. */
  lemma {:induction false} NothingAfterShutdown(t: Tables, queue: seq<Message>, more: seq<Message>)
    ensures Drained(t, queue + [Shutdown] + more) == Drained(t, queue)
    ensures Live(queue) == |queue| && (t.system != [] || queue == []) ==>
      EndingOf(t, queue + [Shutdown] + more) == Stopped
    decreases |queue|
  {
    var all := queue + [Shutdown] + more;
    if queue != [] && queue[0].Info? {
      assert all[1..] == queue[1..] + [Shutdown] + more;
      if t.system != [] {
        NothingAfterShutdown(Committed(t, queue[0]), queue[1..], more);
      }
    }
  }

  /** One more snapshot at the end of a queue. */
  lemma {:induction false} DrainedThen(t: Tables, queue: seq<Message>, m: Message)
    requires Live(queue) == |queue| && m.Info? && t.system != []
    ensures Drained(t, queue).system != []
    ensures Drained(t, queue + [m]) == Committed(Drained(t, queue), m)
    decreases |queue|
  {
    var all := queue + [m];
    if queue == [] {
      assert all[1..] == [];
    } else {
      assert queue[0].Info?;
      assert all[1..] == queue[1..] + [m];
      DrainedThen(Committed(t, queue[0]), queue[1..], m);
    }
  }

  /** Write-back over a whole run: with unique addresses every row and the System row are known. */
  lemma StatusWriteBack(t: Tables, queue: seq<Message>, more: seq<Message>, i: nat)
    requires t.system != [] && UniqueAddresses(t.assocs) && i < |t.assocs|
    requires Live(queue) == |queue|
    ensures var r := Drained(t, queue + [Shutdown] + more);
      && r.assocs[i].address == t.assocs[i].address
      && (forall k: nat :: LastNaming(queue, t.assocs[i].address, k) ==>
            r.assocs[i].status == queue[k].associations[t.assocs[i].address])
      && ((forall k :: 0 <= k < |queue| ==> t.assocs[i].address !in queue[k].associations) ==>
            r.assocs[i] == t.assocs[i])
      && (queue != [] ==> SystemHolds(r.system, queue[|queue| - 1], t.system))
      && (queue == [] ==> r == t)
    ensures EndingOf(t, queue + [Shutdown] + more) == Stopped
  {
    NothingAfterShutdown(t, queue, more);
    SystemHoldsLast(t, queue);
    forall k: nat | LastNaming(queue, t.assocs[i].address, k)
      ensures Drained(t, queue).assocs[i].status == queue[k].associations[t.assocs[i].address]
    {
      LastStatusWins(t, queue, i, k);
    }
    if forall k :: 0 <= k < |queue| ==> t.assocs[i].address !in queue[k].associations {
      Untouched(t, queue, i);
    }
  }

  /** Two rows with one address: the later one is never written, whatever the queue holds. */
  lemma SharedAddressIsNeverWritten(t: Tables, queue: seq<Message>, i: nat, j: nat)
    requires i < j < |t.assocs| && t.assocs[i].address == t.assocs[j].address
    ensures Drained(t, queue).assocs[j] == t.assocs[j]
  {
    Untouched(t, queue, j);
  }

  // ---------- the process ----------

  class TransactionMgr {
    /** The committed tables. */
    var idl: Tables
    /** The tables as the open transaction sees them. */
    var txn: Tables
    var closed: bool

    constructor (tables: Tables)
      ensures idl == tables && !closed
    {
      idl := tables;
      txn := tables;
      closed := false;
    }

    /** The first row with the address, found by a walk that stops there. */
    method FindRowByIpAddr(address: string) returns (row: nat, found: bool)
      ensures found ==> row < |txn.assocs| && txn.assocs[row].address == address && FirstWithAddress(txn.assocs, row)
      ensures !found ==> forall i :: 0 <= i < |txn.assocs| ==> txn.assocs[i].address != address
    {
      row, found := 0, false;
      while row < |txn.assocs|
        invariant row <= |txn.assocs|
        invariant forall i :: 0 <= i < row ==> txn.assocs[i].address != address
      {
        if txn.assocs[row].address == address {
          found := true;
          break;
        }
        row := row + 1;
      }
    }

    /** Stores every status of the snapshot, in whatever order its dictionary is walked. */
    method UpdateRowInAssociationTable(associations: map<string, Column>)
      modifies this`txn
      ensures txn == old(txn).(assocs := RowsAfter(old(txn.assocs), associations, associations.Keys))
    {
      var order := Walk(associations.Keys);
      ghost var rows := txn.assocs;
      var n := 0;
      ghost var seen: set<string> := {};
      assert rows == RowsAfter(rows, associations, {});
      while n < |order|
        invariant n <= |order|
        invariant seen <= associations.Keys
        invariant forall a :: a in seen <==> a in order[..n]
        invariant txn == old(txn).(assocs := RowsAfter(rows, associations, seen))
      {
        var address := order[n];
        var row, found := FindRowByIpAddr(address);
        ghost var before := txn.assocs;
        if found {
          txn := txn.(assocs := txn.assocs[row := txn.assocs[row].(status := associations[address])]);
        }
        OneMore(rows, associations, seen, address, before, txn.assocs, row, found);
        seen := seen + {address};
        n := n + 1;
      }
      assert order[..n] == order;
      assert seen == associations.Keys;
    }

    /** The first System row takes the snapshot; without any row the assignment raises. */
    method UpdateSystemTable(m: Message) returns (ok: bool)
      requires m.Info?
      modifies this`txn
      ensures ok <==> old(txn.system) != []
      ensures txn == if ok then old(txn).(system := SystemAfter(old(txn.system), m)) else old(txn)
      ensures ok ==> SystemHolds(txn.system, m, old(txn.system))
    {
      ok := txn.system != [];
      if ok {
        txn := txn.(system := txn.system[0 := txn.system[0].(status := m.status)]);
        txn := txn.(system := txn.system[0 := txn.system[0].(statistics := m.statistics)]);
        assert txn.system == SystemAfter(old(txn.system), m);
      }
    }

    /** One transaction: all of the snapshot is committed, or nothing. */
    method UpdateInfo(m: Message) returns (ok: bool)
      requires m.Info?
      modifies this`txn, this`idl
      ensures ok <==> old(idl.system) != []
      ensures idl == if ok then Committed(old(idl), m) else old(idl)
    {
      txn := idl;
      UpdateRowInAssociationTable(m.associations);
      ok := UpdateSystemTable(m);
      if ok {
        idl := txn;
      }
    }

    /** The queue loop. */
    method Run(queue: seq<Message>) returns (ending: Ending)
      requires !closed
      modifies this
      ensures idl == Drained(old(idl), queue)
      ensures ending == EndingOf(old(idl), queue)
      ensures closed <==> ending == Stopped
    {
      var rest := queue;
      ending := Waiting;
      while rest != []
        invariant Drained(idl, rest) == Drained(old(idl), queue)
        invariant EndingOf(idl, rest) == EndingOf(old(idl), queue)
        invariant ending == Waiting && !closed
        decreases |rest|
      {
        var message := rest[0];
        if message.Shutdown? {
          ending := Stopped;
          break;
        }
        var ok := UpdateInfo(message);
        if !ok {
          ending := Raised;
          break;
        }
        rest := rest[1..];
      }
      if ending == Stopped {
        closed := true;
      }
    }
  }

  /** One more address of the snapshot stored. */
  lemma OneMore(rows: seq<AssocRow>, associations: map<string, Column>, seen: set<string>, address: string,
                before: seq<AssocRow>, after: seq<AssocRow>, row: nat, found: bool)
    requires seen <= associations.Keys && address in associations
    requires before == RowsAfter(rows, associations, seen)
    requires found ==>
      && row < |before| && before[row].address == address && FirstWithAddress(before, row)
      && after == before[row := before[row].(status := associations[address])]
    requires !found ==> after == before && forall i :: 0 <= i < |before| ==> before[i].address != address
    ensures after == RowsAfter(rows, associations, seen + {address})
  {
    var goal := RowsAfter(rows, associations, seen + {address});
    forall i | 0 <= i < |rows| ensures after[i] == goal[i] {
      assert goal[i] == RowAfter(rows, associations, seen + {address}, i);
      assert before[i] == RowAfter(rows, associations, seen, i);
      if found {
        assert FirstWithAddress(rows, row);
      }
    }
  }
}
