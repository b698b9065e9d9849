/**
 The poll: `ntpq` prints one line a peer, then one record for each association id, and the
 daemon joins the two into one status entry an address.  Any exception loses the whole
 poll, so the result is optional.
 */
module NtpqParser {
  import opened Wrappers
  import opened Enumerations
  import opened Collecting
  import opened Text
  import opened NtpqText
  import opened NtpqRecord
  import opened Unfolding
  import StatusSync

  /** The columns of one line of the peer list. */
  datatype Peer = Peer(
    remote: string, refId: string, assocId: string, stratum: string, kind: string, lastPolled: string,
    pollInterval: string, reach: string, delay: string, offset: string, jitter: string)

  /** A peer with what its record adds; `remote` and `refId` are the ones that are reported. */
  datatype Entry = Entry(peer: Peer, record: Record)

  /** The status of one association, every key of the default entry given a value. */
  datatype Info = Info(
    address: string, refId: string, stratum: string, peerType: string, lastPolled: string,
    pollInterval: string, reach: string, delay: string, offset: string, jitter: string,
    rootDispersion: string, statusWord: string, assocId: string, referenceTime: string)

  /** The names searched for and the two translation tables. */
  datatype Vocabulary = Vocabulary(names: Names, kinds: map<string, string>, selections: map<string, string>)

  function Ntpq(): Vocabulary {
    Vocabulary(
      Names("sel_", "rootdisp", "srcadr", "refid", "reftime"),
      map["u" := "uni_or_many_cast", "b" := "bcast_or_mcast_client", "l" := "local_ref_clock",
          "s" := "symm_peer", "A" := "manycast_server", "B" := "bcast_server", "M" := "mcast_server"],
      map["sel_reject" := "reject", "sel_falsetick" := "falsetick", "sel_excess" := "excess",
          "sel_outlier" := "outlier", "sel_candidate" := "candidate", "sel_backup" := "backup",
          "sel_sys.peer" := "system_peer", "sel_pps.peer" := "pps_peer"])
  }

  // ---------- the peer list ----------

  /** The lines after the two header lines. */
  function PeerLines(output: string): seq<string> {
    var lines := SplitOn('\n', Strip(output));
    if |lines| < 2 then [] else lines[2..]
  }

  function WordsOf(p: Peer): seq<string> {
    [p.remote, p.refId, p.assocId, p.stratum, p.kind, p.lastPolled, p.pollInterval, p.reach, p.delay,
     p.offset, p.jitter]
  }

  /** A line with fewer than eleven words raises; further words are ignored. */
  function ReadPeer(line: string): Option<Peer> {
    var n := Words(line);
    if |n| < 11 then None
    else Some(Peer(n[0], n[1], n[2], n[3], n[4], n[5], n[6], n[7], n[8], n[9], n[10]))
  }

  function PeerItem(line: string): Option<Item<string, Peer>> {
    match ReadPeer(line)
    case None => None
    case Some(p) => Some(Item(p.assocId, p))
  }

  function PeerItems(lines: seq<string>): (items: seq<Option<Item<string, Peer>>>)
    ensures |items| == |lines|
  {
    seq(|lines|, n requires 0 <= n < |lines| => PeerItem(lines[n]))
  }

  /** The peers by association id. */
  ghost function PeerTable(lines: seq<string>): Option<map<string, Peer>> {
    Collect(PeerItems(lines))
  }

  method ReadPeers(output: string) returns (table: Option<map<string, Peer>>)
    ensures table == PeerTable(PeerLines(output))
  {
    var lines := PeerLines(output);
    ghost var items := PeerItems(lines);
    var peers: map<string, Peer> := map[];
    var n := 0;
    while n < |lines|
      invariant n <= |lines| && CollectUpTo(items, n) == Some(peers)
    {
      var peer := ReadPeer(lines[n]);
      assert items[n] == PeerItem(lines[n]);
      if peer.None? {
        CollectFails(items, n + 1, |lines|);
        return None;
      }
      peers := peers[peer.value.assocId := peer.value];
      n := n + 1;
    }
    table := Some(peers);
  }

  // ---------- joining peers and records ----------

  /** A reference id that starts with a dot comes from the peer list, any other from the record. */
  function Join(p: Peer, r: Record): Entry {
    Entry(p.(remote := r.address, refId := if p.refId != "" && p.refId[0] == '.' then p.refId else r.refId), r)
  }

  /** What joining is for: address and, unless the line's begins with a dot, reference id are the record's. */
  predicate Merges(e: Entry, p: Peer, r: Record) {
    && e.record == r && e.peer.remote == r.address
    && (p.refId != "" && p.refId[0] == '.' ==> e.peer.refId == p.refId)
    && (p.refId == "" || p.refId[0] != '.' ==> e.peer.refId == r.refId)
    && e.peer.assocId == p.assocId && e.peer.stratum == p.stratum && e.peer.kind == p.kind
    && e.peer.lastPolled == p.lastPolled && e.peer.pollInterval == p.pollInterval && e.peer.reach == p.reach
    && e.peer.delay == p.delay && e.peer.offset == p.offset && e.peer.jitter == p.jitter
  }

  /** How the record of an id is read; `rv` is what `ntpq` prints for it. */
  function Reader(v: Vocabulary, rv: string -> string): string -> Option<Record> {
    id => ReadRecord(v.names, rv(id))
  }

  function EntryItem(table: map<string, Peer>, read: string -> Option<Record>, id: string): Option<Item<string, Entry>>
    requires id in table
  {
    match read(id)
    case None => None
    case Some(r) => Some(Item(r.address, Join(table[id], r)))
  }

  function EntryItems(table: map<string, Peer>, read: string -> Option<Record>, order: seq<string>)
      : (items: seq<Option<Item<string, Entry>>>)
    requires forall id :: id in order ==> id in table
    ensures |items| == |order|
  {
    seq(|order|, n requires 0 <= n < |order| => EntryItem(table, read, order[n]))
  }

  /** The entries by source address, for the ids in the order of the walk. */
  ghost function Joined(table: map<string, Peer>, read: string -> Option<Record>, order: seq<string>)
      : Option<map<string, Entry>>
    requires forall id :: id in order ==> id in table
  {
    Collect(EntryItems(table, read, order))
  }

  predicate Known(v: Vocabulary, e: Entry) {
    e.peer.kind in v.kinds && e.record.selection in v.selections
  }

  function InfoOf(v: Vocabulary, e: Entry): Info
    requires Known(v, e)
  {
    var p := e.peer;
    Info(p.remote, p.refId, p.stratum, v.kinds[p.kind], p.lastPolled, p.pollInterval, p.reach, p.delay, p.offset,
         p.jitter, e.record.rootDispersion, v.selections[e.record.selection], p.assocId, e.record.referenceTime)
  }

  /** What translating is for: every column under its own name, the two codes looked up. */
  predicate Translates(v: Vocabulary, i: Info, e: Entry) {
    && i.address == e.peer.remote && i.refId == e.peer.refId && i.assocId == e.peer.assocId && i.stratum == e.peer.stratum
    && e.peer.kind in v.kinds && i.peerType == v.kinds[e.peer.kind]
    && i.lastPolled == e.peer.lastPolled && i.pollInterval == e.peer.pollInterval && i.reach == e.peer.reach
    && i.delay == e.peer.delay && i.offset == e.peer.offset && i.jitter == e.peer.jitter
    && e.record.selection in v.selections && i.statusWord == v.selections[e.record.selection]
    && i.rootDispersion == e.record.rootDispersion && i.referenceTime == e.record.referenceTime
  }

  /** The word shown tells which code was read. */
  lemma CodesCanBeTold(a: string, b: string)
    ensures a in Ntpq().kinds && b in Ntpq().kinds && Ntpq().kinds[a] == Ntpq().kinds[b] ==> a == b
    ensures a in Ntpq().selections && b in Ntpq().selections && Ntpq().selections[a] == Ntpq().selections[b] ==> a == b
  {
    KindsCanBeTold(a, b);
  }

  lemma KindsCanBeTold(a: string, b: string)
    ensures a in Ntpq().kinds && b in Ntpq().kinds && Ntpq().kinds[a] == Ntpq().kinds[b] ==> a == b
  {
  }

  /** Translation loses nothing: equal status entries come from equal columns and record values. */
  lemma EntriesCanBeTold(d: Entry, e: Entry)
    requires Known(Ntpq(), d) && Known(Ntpq(), e) && InfoOf(Ntpq(), d) == InfoOf(Ntpq(), e)
    ensures d.peer == e.peer && d.record.selection == e.record.selection
    ensures d.record.rootDispersion == e.record.rootDispersion && d.record.referenceTime == e.record.referenceTime
  {
    CodesCanBeTold(d.peer.kind, e.peer.kind);
    CodesCanBeTold(d.record.selection, e.record.selection);
  }

  /** One code that is not in its table loses every entry. */
  ghost function Translated(v: Vocabulary, entries: map<string, Entry>): Option<map<string, Info>> {
    if forall a :: a in entries ==> Known(v, entries[a])
    then Some(map a | a in entries :: InfoOf(v, entries[a]))
    else None
  }

  /** What a poll that walks the ids in this order returns; unfolded on demand. */
  ghost predicate Polls(v: Vocabulary, output: string, rv: string -> string, order: seq<string>,
                        result: Option<map<string, Info>>) {
    forall k {:trigger Unfolded(TextLayer, k)} :: Unfolded(TextLayer, k) ==>
      match PeerTable(PeerLines(output))
      case None => result == None
      case Some(table) =>
        && Enumerates(order, table.Keys)
        && match Joined(table, Reader(v, rv), order)
           case None => result == None
           case Some(entries) => result == Translated(v, entries)
  }

  lemma PollsMeans(v: Vocabulary, output: string, rv: string -> string, order: seq<string>, result: Option<map<string, Info>>)
    requires Polls(v, output, rv, order, result)
    ensures PeerTable(PeerLines(output)).None? ==> result == None
    ensures PeerTable(PeerLines(output)).Some? ==>
      var table := PeerTable(PeerLines(output)).value;
      && Enumerates(order, table.Keys)
      && var entries := Joined(table, Reader(v, rv), order);
         result == if entries.None? then None else Translated(v, entries.value)
  {
    assert Unfolded(TextLayer, 0);
  }

  method JoinRecords(table: map<string, Peer>, read: string -> Option<Record>, order: seq<string>)
      returns (entries: Option<map<string, Entry>>)
    requires forall id :: id in order ==> id in table
    ensures entries == Joined(table, read, order)
    ensures entries.Some? ==> forall a :: a in entries.value ==>
      exists id :: id in order && read(id).Some? && read(id).value.address == a && Merges(entries.value[a], table[id], read(id).value)
  {
    ghost var items := EntryItems(table, read, order);
    var joined: map<string, Entry> := map[];
    var n := 0;
    while n < |order|
      invariant n <= |order| && CollectUpTo(items, n) == Some(joined)
      invariant forall a :: a in joined ==>
        exists id :: id in order && read(id).Some? && read(id).value.address == a && Merges(joined[a], table[id], read(id).value)
    {
      assert order[n] in order;
      var record := read(order[n]);
      assert items[n] == EntryItem(table, read, order[n]);
      if record.None? {
        CollectFails(items, n + 1, |order|);
        return None;
      }
      joined := joined[record.value.address := Join(table[order[n]], record.value)];
      n := n + 1;
    }
    entries := Some(joined);
  }

  method TranslateEntries(v: Vocabulary, entries: map<string, Entry>) returns (infos: Option<map<string, Info>>)
    ensures infos == Translated(v, entries)
    ensures infos.Some? ==> infos.value.Keys == entries.Keys && forall a :: a in entries ==> Translates(v, infos.value[a], entries[a])
  {
    var order := Walk(entries.Keys);
    var translated: map<string, Info> := map[];
    var n := 0;
    while n < |order|
      invariant n <= |order|
      invariant forall a :: a in translated <==> a in order[..n]
      invariant forall a :: a in order[..n] ==> Known(v, entries[a]) && translated[a] == InfoOf(v, entries[a])
    {
      var address := order[n];
      assert address in order;
      if !Known(v, entries[address]) {
        assert Translated(v, entries) == None;
        return None;
      }
      translated := translated[address := InfoOf(v, entries[address])];
      n := n + 1;
    }
    assert order[..n] == order;
    assert forall a :: a in entries ==> a in order;
    assert translated == map a | a in entries :: InfoOf(v, entries[a]);
    infos := Some(translated);
  }

  /** The whole poll; `rv` is what `ntpq` prints for an id. */
  method GetAssociationsInfo(v: Vocabulary, output: string, rv: string -> string)
      returns (infos: Option<map<string, Info>>)
    ensures exists order :: Polls(v, output, rv, order, infos)
  {
    var table := ReadPeers(output);
    if table.None? {
      assert Polls(v, output, rv, [], None);
      return None;
    }
    var ids := Walk(table.value.Keys);
    var entries := JoinRecords(table.value, Reader(v, rv), ids);
    if entries.None? {
      assert Polls(v, output, rv, ids, None);
      return None;
    }
    infos := TranslateEntries(v, entries.value);
    assert Polls(v, output, rv, ids, infos);
  }

  // ---------- what ntpq prints ----------

  /** One association as `ntpq` reports it: its line, its peer columns, its record. */
  datatype Report = Report(line: string, peer: Peer, fields: seq<Field>, at: Places, record: Record)

  /** The line and the record text say what they are meant to say; unfolded on demand. */
  ghost predicate Sound(v: Vocabulary, rv: string -> string, r: Report) {
    forall k {:trigger Unfolded(TextLayer, k)} :: Unfolded(TextLayer, k) ==>
      && Free('\n', r.line) && Words(r.line) == WordsOf(r.peer)
      && rv(r.peer.assocId) == Written(r.fields) && Says(v.names, r.fields, r.at, r.record)
  }

  lemma SoundMeans(v: Vocabulary, rv: string -> string, r: Report)
    requires Sound(v, rv, r)
    ensures Free('\n', r.line) && Words(r.line) == WordsOf(r.peer)
    ensures rv(r.peer.assocId) == Written(r.fields) && Says(v.names, r.fields, r.at, r.record)
  {
    assert Unfolded(TextLayer, 0);
  }

  ghost predicate DistinctIds(reports: seq<Report>) {
    forall i, j :: 0 <= i < j < |reports| ==> reports[i].peer.assocId != reports[j].peer.assocId
  }

  ghost predicate DistinctAddresses(reports: seq<Report>) {
    forall i, j :: 0 <= i < j < |reports| ==> reports[i].record.address != reports[j].record.address
  }

  ghost function LinesOf(reports: seq<Report>): (lines: seq<string>)
    ensures |lines| == |reports|
  {
    seq(|reports|, i requires 0 <= i < |reports| => reports[i].line)
  }

  /** The peer list: two header lines and the lines of the reports, with white space around the whole; unfolded on demand. */
  ghost predicate Prints(output: string, reports: seq<Report>) {
    forall k {:trigger Unfolded(TextLayer, k)} :: Unfolded(TextLayer, k) ==>
      exists left, header, rule, right ::
        && Blank(left) && Blank(right) && Free('\n', header) && Free('\n', rule)
        && Trimmed(JoinWith('\n', [header, rule] + LinesOf(reports)))
        && output == left + JoinWith('\n', [header, rule] + LinesOf(reports)) + right
  }

  lemma PrintedParts(output: string, reports: seq<Report>)
      returns (left: string, header: string, rule: string, right: string)
    requires Prints(output, reports)
    ensures Blank(left) && Blank(right) && Free('\n', header) && Free('\n', rule)
    ensures Trimmed(JoinWith('\n', [header, rule] + LinesOf(reports)))
    ensures output == left + JoinWith('\n', [header, rule] + LinesOf(reports)) + right
  {
    assert Unfolded(TextLayer, 0);
    left, header, rule, right :|
      && Blank(left) && Blank(right) && Free('\n', header) && Free('\n', rule)
      && Trimmed(JoinWith('\n', [header, rule] + LinesOf(reports)))
      && output == left + JoinWith('\n', [header, rule] + LinesOf(reports)) + right;
  }

  lemma LinesAreFree(v: Vocabulary, rv: string -> string, reports: seq<Report>)
    requires forall i :: 0 <= i < |reports| ==> Sound(v, rv, reports[i])
    ensures forall i :: 0 <= i < |reports| ==> Free('\n', LinesOf(reports)[i])
  {
    forall i | 0 <= i < |reports| ensures Free('\n', LinesOf(reports)[i]) {
      SoundMeans(v, rv, reports[i]);
    }
  }

  /** Joined lines split again, the two header lines dropped. */
  lemma LinesSplit(header: string, rule: string, lines: seq<string>)
    requires Free('\n', header) && Free('\n', rule) && forall i :: 0 <= i < |lines| ==> Free('\n', lines[i])
    ensures SplitOn('\n', JoinWith('\n', [header, rule] + lines)) == [header, rule] + lines
    ensures ([header, rule] + lines)[2..] == lines
  {
    SplitOfJoin('\n', [header, rule] + lines);
  }

  lemma LinesComeBack(v: Vocabulary, rv: string -> string, output: string, reports: seq<Report>)
    requires Prints(output, reports) && forall i :: 0 <= i < |reports| ==> Sound(v, rv, reports[i])
    ensures PeerLines(output) == LinesOf(reports)
  {
    var left, header, rule, right := PrintedParts(output, reports);
    LinesAreFree(v, rv, reports);
    LinesSplit(header, rule, LinesOf(reports));
    StripPadded(left, JoinWith('\n', [header, rule] + LinesOf(reports)), right);
  }

  /** Every line and every record text reads back as what it says. */
  ghost predicate ReadsBack(reports: seq<Report>, read: string -> Option<Record>) {
    forall i :: 0 <= i < |reports| ==>
      && ReadPeer(reports[i].line) == Some(reports[i].peer)
      && read(reports[i].peer.assocId) == Some(reports[i].record)
  }

  lemma SoundReadsBack(v: Vocabulary, rv: string -> string, reports: seq<Report>)
    requires forall i :: 0 <= i < |reports| ==> Sound(v, rv, reports[i])
    ensures ReadsBack(reports, Reader(v, rv))
  {
    forall i | 0 <= i < |reports|
      ensures ReadPeer(reports[i].line) == Some(reports[i].peer)
      ensures Reader(v, rv)(reports[i].peer.assocId) == Some(reports[i].record)
    {
      var r := reports[i];
      SoundMeans(v, rv, r);
      PeerComesBack(r);
      RecordRoundTrip(v.names, r.fields, r.at, r.record);
    }
  }

  function IdsOf(reports: seq<Report>): (ids: seq<string>)
    ensures |ids| == |reports| && forall i :: 0 <= i < |ids| ==> ids[i] == reports[i].peer.assocId
  {
    seq(|reports|, i requires 0 <= i < |reports| => reports[i].peer.assocId)
  }

  function PeersOf(reports: seq<Report>): (peers: seq<Peer>)
    ensures |peers| == |reports| && forall i :: 0 <= i < |peers| ==> peers[i] == reports[i].peer
  {
    seq(|reports|, i requires 0 <= i < |reports| => reports[i].peer)
  }

  function AddressesOf(reports: seq<Report>): (addresses: seq<string>)
    ensures |addresses| == |reports| && forall i :: 0 <= i < |addresses| ==> addresses[i] == reports[i].record.address
  {
    seq(|reports|, i requires 0 <= i < |reports| => reports[i].record.address)
  }

  function EntriesOf(reports: seq<Report>): (entries: seq<Entry>)
    ensures |entries| == |reports|
    ensures forall i :: 0 <= i < |entries| ==> entries[i] == Join(reports[i].peer, reports[i].record)
  {
    seq(|reports|, i requires 0 <= i < |reports| => Join(reports[i].peer, reports[i].record))
  }

  /** The peer table has exactly one row a report. */
  lemma PeersComeBack(reports: seq<Report>, read: string -> Option<Record>) returns (table: map<string, Peer>)
    requires DistinctIds(reports) && ReadsBack(reports, read)
    ensures PeerTable(LinesOf(reports)) == Some(table) && HoldsPairs(table, IdsOf(reports), PeersOf(reports))
  {
    var items := PeerItems(LinesOf(reports));
    forall i | 0 <= i < |items| ensures items[i] == Some(Item(IdsOf(reports)[i], PeersOf(reports)[i])) {
      assert items[i] == PeerItem(reports[i].line);
    }
    table := CollectAll(items, IdsOf(reports), PeersOf(reports));
  }

  lemma PeerComesBack(r: Report)
    requires Words(r.line) == WordsOf(r.peer)
    ensures ReadPeer(r.line) == Some(r.peer)
  {
  }

  // ---------- the poll inverts what ntpq prints ----------

  /** The joined entries are exactly those of the reports, in any order of the walk. */
  lemma EntriesComeBack(reports: seq<Report>, read: string -> Option<Record>, table: map<string, Peer>, order: seq<string>)
      returns (entries: map<string, Entry>)
    requires DistinctIds(reports) && DistinctAddresses(reports) && ReadsBack(reports, read)
    requires HoldsPairs(table, IdsOf(reports), PeersOf(reports)) && Enumerates(order, table.Keys)
    ensures Joined(table, read, order) == Some(entries) && HoldsPairs(entries, AddressesOf(reports), EntriesOf(reports))
  {
    var ids, items := IdsOf(reports), EntryItems(table, read, order);
    forall x ensures x in order <==> x in ids {
      if x in table {
        var i :| 0 <= i < |ids| && ids[i] == x;
      }
      if x in ids {
        var i :| 0 <= i < |ids| && ids[i] == x;
        assert x in table;
      }
    }
    forall k, i | 0 <= k < |order| && 0 <= i < |ids| && order[k] == ids[i]
      ensures items[k] == Some(Item(AddressesOf(reports)[i], EntriesOf(reports)[i]))
    {
      assert items[k] == EntryItem(table, read, ids[i]);
      assert table[ids[i]] == PeersOf(reports)[i];
      assert read(ids[i]) == Some(reports[i].record);
    }
    entries := CollectByWalk(ids, AddressesOf(reports), EntriesOf(reports), order, items);
  }

  ghost predicate AllKnown(v: Vocabulary, reports: seq<Report>) {
    forall i :: 0 <= i < |reports| ==> reports[i].peer.kind in v.kinds && reports[i].record.selection in v.selections
  }

  /**
   The entry of one association, column by column: the words of its line by their position, the values of
   its record, the two codes looked up.  The reference id is the line's if that begins with a dot.
   */
  predicate Reported(v: Vocabulary, i: Info, n: seq<string>, r: Record) {
    && |n| == 11
    && (n[1] != "" && n[1][0] == '.' ==> i.refId == n[1])
    && (n[1] == "" || n[1][0] != '.' ==> i.refId == r.refId)
    && i.address == r.address && i.assocId == n[2] && i.stratum == n[3]
    && n[4] in v.kinds && i.peerType == v.kinds[n[4]]
    && i.lastPolled == n[5] && i.pollInterval == n[6] && i.reach == n[7]
    && i.delay == n[8] && i.offset == n[9] && i.jitter == n[10]
    && r.selection in v.selections && i.statusWord == v.selections[r.selection]
    && i.rootDispersion == r.rootDispersion && i.referenceTime == r.referenceTime
  }

  lemma WordsAreReported(v: Vocabulary, p: Peer, r: Record)
    requires Known(v, Join(p, r))
    ensures Reported(v, InfoOf(v, Join(p, r)), WordsOf(p), r)
  {
    assert Merges(Join(p, r), p, r) && Translates(v, InfoOf(v, Join(p, r)), Join(p, r));
  }

  lemma ReportIsReported(v: Vocabulary, rv: string -> string, r: Report)
    requires Sound(v, rv, r) && Known(v, Join(r.peer, r.record))
    ensures Reported(v, InfoOf(v, Join(r.peer, r.record)), Words(r.line), r.record)
  {
    SoundMeans(v, rv, r);
    WordsAreReported(v, r.peer, r.record);
  }

  /**
   A poll of well-formed output gives a result exactly when every code is in its table, and then it
   gives exactly one entry a report, with every column and record value recovered, in any walk order.
   */
  lemma PollInvertsPrinting(v: Vocabulary, output: string, rv: string -> string, reports: seq<Report>,
                            order: seq<string>, result: Option<map<string, Info>>)
    requires Prints(output, reports) && forall i :: 0 <= i < |reports| ==> Sound(v, rv, reports[i])
    requires DistinctIds(reports) && DistinctAddresses(reports)
    requires Polls(v, output, rv, order, result)
    ensures result.Some? <==> AllKnown(v, reports)
    ensures result.Some? ==>
      && (forall i :: 0 <= i < |reports| ==>
            && reports[i].record.address in result.value
            && Reported(v, result.value[reports[i].record.address], Words(reports[i].line), reports[i].record))
      && (forall a :: a in result.value ==> exists i :: 0 <= i < |reports| && reports[i].record.address == a)
  {
    LinesComeBack(v, rv, output, reports);
    SoundReadsBack(v, rv, reports);
    PolledReports(v, output, rv, reports, order, result);
    if result.Some? {
      forall i | 0 <= i < |reports|
        ensures Reported(v, InfoOf(v, Join(reports[i].peer, reports[i].record)), Words(reports[i].line), reports[i].record)
      {
        ReportIsReported(v, rv, reports[i]);
      }
    }
  }

  lemma KnownEntries(v: Vocabulary, reports: seq<Report>)
    ensures AllKnown(v, reports) <==> forall i :: 0 <= i < |reports| ==> Known(v, EntriesOf(reports)[i])
  {
    if forall i :: 0 <= i < |reports| ==> Known(v, EntriesOf(reports)[i]) {
      forall i | 0 <= i < |reports| ensures reports[i].peer.kind in v.kinds && reports[i].record.selection in v.selections {
        assert Known(v, EntriesOf(reports)[i]);
      }
    }
  }

  /** The same for reports whose lines and records are known to read back. */
  lemma PolledReports(v: Vocabulary, output: string, rv: string -> string, reports: seq<Report>,
                      order: seq<string>, result: Option<map<string, Info>>)
    requires PeerLines(output) == LinesOf(reports) && ReadsBack(reports, Reader(v, rv))
    requires DistinctIds(reports) && DistinctAddresses(reports)
    requires Polls(v, output, rv, order, result)
    ensures result.Some? <==> AllKnown(v, reports)
    ensures result.Some? ==>
      && (forall i :: 0 <= i < |reports| ==>
            && reports[i].record.address in result.value
            && result.value[reports[i].record.address] == InfoOf(v, Join(reports[i].peer, reports[i].record)))
      && (forall a :: a in result.value ==> exists i :: 0 <= i < |reports| && reports[i].record.address == a)
  {
    PollsMeans(v, output, rv, order, result);
    var table := PeersComeBack(reports, Reader(v, rv));
    var entries := EntriesComeBack(reports, Reader(v, rv), table, order);
    TranslatedReports(v, AddressesOf(reports), EntriesOf(reports), entries);
    KnownEntries(v, reports);
  }

  lemma TranslatedReports(v: Vocabulary, addresses: seq<string>, es: seq<Entry>, entries: map<string, Entry>)
    requires |addresses| == |es| && HoldsPairs(entries, addresses, es)
    ensures Translated(v, entries).Some? <==> forall i :: 0 <= i < |es| ==> Known(v, es[i])
    ensures Translated(v, entries).Some? ==> var infos := Translated(v, entries).value;
      && (forall i :: 0 <= i < |es| ==> addresses[i] in infos && infos[addresses[i]] == InfoOf(v, es[i]))
      && (forall a :: a in infos ==> exists i :: 0 <= i < |es| && addresses[i] == a)
  {
    if forall i :: 0 <= i < |es| ==> Known(v, es[i]) {
      forall a | a in entries ensures Known(v, entries[a]) {
        var i :| 0 <= i < |addresses| && addresses[i] == a;
        assert entries[a] == es[i];
      }
    }
  }

  // ---------- when a poll of any output succeeds ----------

  predicate LongEnough(lines: seq<string>) {
    forall k :: 0 <= k < |lines| ==> |Words(lines[k])| >= 11
  }

  /** The record of every listed association id reads. */
  predicate RecordsRead(lines: seq<string>, read: string -> Option<Record>) {
    forall k :: 0 <= k < |lines| && |Words(lines[k])| >= 11 ==> read(Words(lines[k])[2]).Some?
  }

  /** The pieces of every listed association's record are legible. */
  predicate RecordsLegible(names: Names, lines: seq<string>, rv: string -> string) {
    forall k :: 0 <= k < |lines| && |Words(lines[k])| >= 11 ==>
      Legible(names, SplitOn(',', Flatten(rv(Words(lines[k])[2]))))
  }

  lemma LegibleRecordsRead(v: Vocabulary, lines: seq<string>, rv: string -> string)
    ensures RecordsRead(lines, Reader(v, rv)) <==> RecordsLegible(v.names, lines, rv)
  {
    forall k | 0 <= k < |lines| && |Words(lines[k])| >= 11
      ensures Reader(v, rv)(Words(lines[k])[2]).Some? <==> Legible(v.names, SplitOn(',', Flatten(rv(Words(lines[k])[2]))))
    {
      RecordReadsExactly(v.names, rv(Words(lines[k])[2]));
    }
  }

  /** No later id of the walk has the same source address. */
  ghost predicate LastWithAddress(read: string -> Option<Record>, order: seq<string>, i: nat) {
    && i < |order|
    && forall j :: i < j < |order| && read(order[i]).Some? && read(order[j]).Some? ==>
         read(order[j]).value.address != read(order[i]).value.address
  }

  /** Both codes of every entry that is not replaced by a later one of its address are in their tables. */
  ghost predicate CodesKnown(v: Vocabulary, table: map<string, Peer>, read: string -> Option<Record>, order: seq<string>) {
    forall i: nat :: LastWithAddress(read, order, i) && order[i] in table && read(order[i]).Some? ==>
      table[order[i]].kind in v.kinds && read(order[i]).value.selection in v.selections
  }

  lemma PeerTableSucceeds(lines: seq<string>)
    ensures PeerTable(lines).Some? <==> LongEnough(lines)
  {
    var items := PeerItems(lines);
    CollectSucceeds(items, |lines|);
    forall k | 0 <= k < |lines| ensures items[k].Some? <==> |Words(lines[k])| >= 11 {
      assert items[k] == PeerItem(lines[k]);
    }
  }

  /** The ids of the table are the third words of the lines. */
  lemma IdsOfTable(lines: seq<string>, id: string)
    requires LongEnough(lines)
    ensures PeerTable(lines).Some?
    ensures id in PeerTable(lines).value <==> exists k :: 0 <= k < |lines| && Words(lines[k])[2] == id
  {
    PeerTableSucceeds(lines);
    var items := PeerItems(lines);
    CollectSucceeds(items, |lines|);
    var collected := CollectedValues(items, |lines|);
    forall k | 0 <= k < |lines| ensures items[k].Some? && items[k].value.key == Words(lines[k])[2] {
      assert items[k] == PeerItem(lines[k]);
    }
    if id in PeerTable(lines).value {
      var i: nat :| LastOfKey(items, |lines|, i) && items[i].value.key == id;
    }
    if k :| 0 <= k < |lines| && Words(lines[k])[2] == id {
      assert items[k].value.key == id;
    }
  }

  lemma RecordsReadByWalk(lines: seq<string>, read: string -> Option<Record>, order: seq<string>)
    requires LongEnough(lines) && PeerTable(lines).Some? && Enumerates(order, PeerTable(lines).value.Keys)
    ensures RecordsRead(lines, read) <==> forall i :: 0 <= i < |order| ==> read(order[i]).Some?
  {
    forall i | 0 <= i < |order| ensures exists k :: 0 <= k < |lines| && Words(lines[k])[2] == order[i] {
      IdsOfTable(lines, order[i]);
      assert order[i] in order;
    }
    forall k | 0 <= k < |lines| ensures Words(lines[k])[2] in order {
      IdsOfTable(lines, Words(lines[k])[2]);
    }
  }

  lemma JoinedSucceeds(table: map<string, Peer>, read: string -> Option<Record>, order: seq<string>)
    requires forall id :: id in order ==> id in table
    ensures Joined(table, read, order).Some? <==> forall i :: 0 <= i < |order| ==> read(order[i]).Some?
  {
    var items := EntryItems(table, read, order);
    CollectSucceeds(items, |order|);
    forall i | 0 <= i < |order| ensures items[i].Some? <==> read(order[i]).Some? {
      assert items[i] == EntryItem(table, read, order[i]);
    }
  }

  lemma KnownByLast(v: Vocabulary, items: seq<Option<Item<string, Entry>>>, entries: map<string, Entry>)
    requires forall i :: 0 <= i < |items| ==> items[i].Some?
    requires HoldsLast(items, |items|, entries)
    ensures Translated(v, entries).Some? <==> forall i: nat :: LastOfKey(items, |items|, i) ==> Known(v, items[i].value.value)
  {
    if Translated(v, entries).Some? {
      forall i: nat | LastOfKey(items, |items|, i) ensures Known(v, items[i].value.value) {
        assert entries[items[i].value.key] == items[i].value.value;
      }
    } else {
      var a :| a in entries && !Known(v, entries[a]);
      var i: nat :| LastOfKey(items, |items|, i) && items[i].value.key == a;
    }
  }

  lemma EntryItemsOf(table: map<string, Peer>, read: string -> Option<Record>, order: seq<string>, i: nat)
    requires (forall id :: id in order ==> id in table) && forall k :: 0 <= k < |order| ==> read(order[k]).Some?
    requires i < |order|
    ensures var items := EntryItems(table, read, order);
      && (forall k :: 0 <= k < |order| ==> items[k].Some? && items[k].value.key == read(order[k]).value.address)
      && (LastOfKey(items, |order|, i) <==> LastWithAddress(read, order, i))
      && items[i].value.value == Join(table[order[i]], read(order[i]).value)
  {
    var items := EntryItems(table, read, order);
    forall k | 0 <= k < |order| ensures items[k].Some? && items[k].value.key == read(order[k]).value.address {
      assert items[k] == EntryItem(table, read, order[k]);
    }
    assert items[i] == EntryItem(table, read, order[i]);
  }

  lemma TranslatedSucceeds(v: Vocabulary, table: map<string, Peer>, read: string -> Option<Record>, order: seq<string>)
    requires forall id :: id in order ==> id in table
    requires forall i :: 0 <= i < |order| ==> read(order[i]).Some?
    ensures Joined(table, read, order).Some?
    ensures Translated(v, Joined(table, read, order).value).Some? <==> CodesKnown(v, table, read, order)
  {
    var items := EntryItems(table, read, order);
    forall i: nat | i < |order|
      ensures items[i].Some? && items[i].value.value == Join(table[order[i]], read(order[i]).value)
    {
      EntryItemsOf(table, read, order, i);
    }
    forall i: nat | i < |order| ensures LastOfKey(items, |order|, i) <==> LastWithAddress(read, order, i) {
      EntryItemsOf(table, read, order, i);
    }
    var entries := CollectedValues(items, |order|);
    KnownByLast(v, items, entries);
    if CodesKnown(v, table, read, order) {
      forall i: nat | LastOfKey(items, |order|, i) ensures Known(v, items[i].value.value) {
        assert LastWithAddress(read, order, i) && order[i] in order;
      }
    } else {
      var i: nat :| LastWithAddress(read, order, i) && !Known(v, Join(table[order[i]], read(order[i]).value));
      assert LastOfKey(items, |order|, i);
    }
  }

  /**
   A poll of any output whatever succeeds if and only if every line after the headers has eleven
   words, the record of every listed id is legible, and every entry that stays has known codes.
   */
  lemma PollSucceedsExactly(v: Vocabulary, output: string, rv: string -> string,
                            order: seq<string>, result: Option<map<string, Info>>)
    requires Polls(v, output, rv, order, result)
    ensures PeerTable(PeerLines(output)).Some? <==> LongEnough(PeerLines(output))
    ensures result.Some? <==>
      && LongEnough(PeerLines(output))
      && RecordsLegible(v.names, PeerLines(output), rv)
      && CodesKnown(v, PeerTable(PeerLines(output)).value, Reader(v, rv), order)
  {
    var lines, read := PeerLines(output), Reader(v, rv);
    PollsMeans(v, output, rv, order, result);
    PeerTableSucceeds(lines);
    if LongEnough(lines) {
      var table := PeerTable(lines).value;
      LegibleRecordsRead(v, lines, rv);
      RecordsReadByWalk(lines, read, order);
      JoinedSucceeds(table, read, order);
      if RecordsRead(lines, read) {
        TranslatedSucceeds(v, table, read, order);
      }
    }
  }

  /** In particular one line with too few words loses the whole poll. */
  lemma ShortLineLosesPoll(v: Vocabulary, output: string, rv: string -> string, k: nat,
                           order: seq<string>, result: Option<map<string, Info>>)
    requires k < |PeerLines(output)| && |Words(PeerLines(output)[k])| < 11
    requires Polls(v, output, rv, order, result)
    ensures result == None
  {
    PollSucceedsExactly(v, output, rv, order, result);
  }

  // ---------- from the poll to the table ----------

  /** The status entry of one association: every key of the default entry filled in, and the reference time. */
  function ColumnsOf(i: Info): StatusSync.Column {
    map["remote_peer_address" := i.address, "remote_peer_ref_id" := i.refId, "stratum" := i.stratum,
        "peer_type" := i.peerType, "last_polled" := i.lastPolled, "polling_interval" := i.pollInterval,
        "reachability_register" := i.reach, "network_delay" := i.delay, "time_offset" := i.offset,
        "jitter" := i.jitter, "root_dispersion" := i.rootDispersion, "peer_status_word" := i.statusWord,
        "associd" := i.assocId, "reference_time" := i.referenceTime]
  }

  const STATUS_COLUMNS := {
    "remote_peer_address", "remote_peer_ref_id", "stratum", "peer_type", "last_polled", "polling_interval",
    "reachability_register", "network_delay", "time_offset", "jitter", "root_dispersion", "peer_status_word",
    "associd", "reference_time"}

  lemma ColumnsByName(i: Info)
    ensures var s := ColumnsOf(i);
      && s.Keys == STATUS_COLUMNS
      && s["remote_peer_address"] == i.address && s["remote_peer_ref_id"] == i.refId && s["associd"] == i.assocId
      && s["stratum"] == i.stratum && s["peer_type"] == i.peerType && s["last_polled"] == i.lastPolled
      && s["polling_interval"] == i.pollInterval && s["reachability_register"] == i.reach && s["network_delay"] == i.delay
      && s["time_offset"] == i.offset && s["jitter"] == i.jitter && s["peer_status_word"] == i.statusWord
      && s["root_dispersion"] == i.rootDispersion && s["reference_time"] == i.referenceTime
  {
  }

  /** The status column of a row, key by key; `n` are the words of the peer line. */
  predicate StatusReports(v: Vocabulary, s: StatusSync.Column, n: seq<string>, r: Record) {
    && |n| == 11 && s.Keys == STATUS_COLUMNS
    && s["remote_peer_address"] == r.address
    && (n[1] != "" && n[1][0] == '.' ==> s["remote_peer_ref_id"] == n[1])
    && (n[1] == "" || n[1][0] != '.' ==> s["remote_peer_ref_id"] == r.refId)
    && s["associd"] == n[2] && s["stratum"] == n[3]
    && n[4] in v.kinds && s["peer_type"] == v.kinds[n[4]]
    && s["last_polled"] == n[5] && s["polling_interval"] == n[6] && s["reachability_register"] == n[7]
    && s["network_delay"] == n[8] && s["time_offset"] == n[9] && s["jitter"] == n[10]
    && r.selection in v.selections && s["peer_status_word"] == v.selections[r.selection]
    && s["root_dispersion"] == r.rootDispersion && s["reference_time"] == r.referenceTime
  }

  lemma ColumnsReport(v: Vocabulary, i: Info, n: seq<string>, r: Record)
    requires Reported(v, i, n, r)
    ensures StatusReports(v, ColumnsOf(i), n, r)
  {
    ColumnsByName(i);
  }

  /** The message put on the queue. */
  ghost function MessageOf(infos: map<string, Info>, statistics: StatusSync.Column, status: StatusSync.Column)
      : StatusSync.Message
  {
    StatusSync.Info(map a | a in infos :: ColumnsOf(infos[a]), statistics, status)
  }

  /** What the poll's message does to one row, whatever the queue held before. */
  lemma MessageReachesRow(infos: map<string, Info>, statistics: StatusSync.Column, status: StatusSync.Column,
                          t: StatusSync.Tables, earlier: seq<StatusSync.Message>, i: nat)
    requires t.system != [] && StatusSync.UniqueAddresses(t.assocs) && i < |t.assocs|
    requires StatusSync.Live(earlier) == |earlier|
    ensures var before := StatusSync.Drained(t, earlier).assocs[i];
      StatusSync.Drained(t, earlier + [MessageOf(infos, statistics, status)]).assocs[i] ==
        if t.assocs[i].address in infos then before.(status := ColumnsOf(infos[t.assocs[i].address])) else before
    ensures var system := StatusSync.Drained(t, earlier + [MessageOf(infos, statistics, status)]).system;
      system != [] && system[0].status == status && system[0].statistics == statistics
  {
    StatusSync.DrainedThen(t, earlier, MessageOf(infos, statistics, status));
  }

  /**
   After the message of a successful poll is drained, every row with a reported address holds
   that report, and every other row, such as one that names a host, is as the queue left it before.
   */
  lemma ReportReachesRow(v: Vocabulary, output: string, rv: string -> string, reports: seq<Report>,
                         order: seq<string>, result: Option<map<string, Info>>,
                         statistics: StatusSync.Column, status: StatusSync.Column,
                         t: StatusSync.Tables, earlier: seq<StatusSync.Message>, i: nat)
    requires Prints(output, reports) && forall i :: 0 <= i < |reports| ==> Sound(v, rv, reports[i])
    requires DistinctIds(reports) && DistinctAddresses(reports)
    requires Polls(v, output, rv, order, result) && AllKnown(v, reports)
    requires t.system != [] && StatusSync.UniqueAddresses(t.assocs) && i < |t.assocs|
    requires StatusSync.Live(earlier) == |earlier|
    ensures result.Some?
    ensures var row := StatusSync.Drained(t, earlier + [MessageOf(result.value, statistics, status)]).assocs[i];
      && (forall k :: 0 <= k < |reports| && reports[k].record.address == t.assocs[i].address ==>
            StatusReports(v, row.status, Words(reports[k].line), reports[k].record))
      && ((forall k :: 0 <= k < |reports| ==> reports[k].record.address != t.assocs[i].address) ==>
            row == StatusSync.Drained(t, earlier).assocs[i])
  {
    PollInvertsPrinting(v, output, rv, reports, order, result);
    MessageReachesRow(result.value, statistics, status, t, earlier, i);
    forall k | 0 <= k < |reports| && reports[k].record.address == t.assocs[i].address
      ensures StatusReports(v, ColumnsOf(result.value[reports[k].record.address]), Words(reports[k].line), reports[k].record)
    {
      ColumnsReport(v, result.value[reports[k].record.address], Words(reports[k].line), reports[k].record);
    }
  }
}
