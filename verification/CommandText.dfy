/**
 The text that carries commands and keys to the NTP daemon, and how the daemon reads it.
 */
module CommandText {
  import opened Wrappers
  import opened Text
  import opened Ntpd
  import opened Enumerations

  // ---------- commands ----------

  function DecimalWords(ids: seq<int>): seq<string> {
    if ids == [] then [] else [Decimal(ids[0])] + DecimalWords(ids[1..])
  }

  function OptionWords(p: Params): seq<string> {
    (if p.key.Some? then ["key", Decimal(p.key.value)] else []) +
    (if p.prefer then ["prefer"] else [])
  }

  function CommandWords(c: Command): (ws: seq<string>)
    ensures |ws| > 0
  {
    match c
    case Unconfig(a) => [":config", "unconfig", a]
    case Server(a, p) => [":config", "server", a, "version", p.version] + OptionWords(p)
    case Untrust(ids) => [":config", "unconfig", "trustedkey"] + DecimalWords(ids)
    case Trust(ids) => [":config", "trustedkey"] + DecimalWords(ids)
  }

  /** The command as the text of one `ntpq -c` argument. */
  function Render(c: Command): string {
    Line(CommandWords(c))
  }

  function RenderAll(cs: seq<Command>): seq<string> {
    if cs == [] then [] else [Render(cs[0])] + RenderAll(cs[1..])
  }

  lemma {:induction false} RenderAllAppend(a: seq<Command>, b: seq<Command>)
    ensures RenderAll(a + b) == RenderAll(a) + RenderAll(b)
  {
    if a == [] {
      assert a + b == b;
    } else {
      assert (a + b)[1..] == a[1..] + b;
      RenderAllAppend(a[1..], b);
    }
  }

  lemma {:induction false} RenderTwo(c: Command, d: Command)
    ensures RenderAll([c]) == [Render(c)]
    ensures RenderAll([c, d]) == [Render(c), Render(d)]
  {
    assert [c][1..] == [] && [c, d][1..] == [d] && [d][1..] == [];
    assert RenderAll([d]) == [Render(d)];
  }

  lemma RenderAllSnoc(cs: seq<Command>, c: Command)
    ensures RenderAll(cs + [c]) == RenderAll(cs) + [Render(c)]
  {
    RenderAllAppend(cs, [c]);
    RenderTwo(c, c);
  }

  // ---------- the texts as they are sent ----------

  lemma {:induction false} SpacedIsJoined(ws: seq<string>)
    requires ws != []
    ensures Spaced(ws) == " " + JoinWith(' ', ws)
  {
    if |ws| > 1 {
      SpacedIsJoined(ws[1..]);
    }
  }

  lemma SpacedFirst(a: string, rest: seq<string>)
    ensures Spaced([a] + rest) == " " + (a + Spaced(rest))
  {
    assert ([a] + rest)[1..] == rest;
    assert " " + a + Spaced(rest) == " " + (a + Spaced(rest));
  }

  /** Two words, then others. */
  lemma TwoWords(a: string, b: string, rest: seq<string>)
    ensures Line([a, b] + rest) == (a + " " + b) + Spaced(rest)
  {
    assert ([a, b] + rest)[1..] == [b] + rest;
    SpacedFirst(b, rest);
    assert a + (" " + (b + Spaced(rest))) == (a + " " + b) + Spaced(rest);
  }

  lemma ThreeWords(a: string, b: string, c: string, rest: seq<string>)
    ensures Line([a, b, c] + rest) == (a + " " + b + " " + c) + Spaced(rest)
  {
    assert [a, b, c] + rest == [a, b] + ([c] + rest);
    TwoWords(a, b, [c] + rest);
    SpacedFirst(c, rest);
    assert (a + " " + b) + (" " + (c + Spaced(rest))) == (a + " " + b + " " + c) + Spaced(rest);
  }

  lemma UnconfigSent(address: string)
    ensures Render(Unconfig(address)) == ":config unconfig" + (" " + address)
  {
    TwoWords(":config", "unconfig", [address]);
    SpacedFirst(address, []);
    UnconfigWords();
    assert [address] + [] == [address];
    assert [":config", "unconfig", address] == [":config", "unconfig"] + [address];
  }

  lemma UnconfigWords()
    ensures ":config" + " " + "unconfig" == ":config unconfig"
  {
  }

  lemma ServerWords()
    ensures ":config" + " " + "server" == ":config server"
  {
  }

  lemma TrustWords()
    ensures ":config" + " " + "trustedkey" == ":config trustedkey"
    ensures ":config" + " " + "unconfig" + " " + "trustedkey" == ":config unconfig trustedkey"
  {
  }

  lemma ServerSent(address: string, p: Params)
    ensures Render(Server(address, p)) == ":config server" + (" " + (address + (" " + ("version" + (" " + (p.version + OptionText(p)))))))
  {
    var options := OptionWords(p);
    assert CommandWords(Server(address, p)) == [":config", "server"] + ([address] + (["version"] + ([p.version] + options)));
    TwoWords(":config", "server", [address] + (["version"] + ([p.version] + options)));
    SpacedFirst(address, ["version"] + ([p.version] + options));
    SpacedFirst("version", [p.version] + options);
    SpacedFirst(p.version, options);
    ServerWords();
    OptionsSent(p);
  }

  function OptionText(p: Params): string {
    (if p.key.Some? then " " + ("key" + (" " + Decimal(p.key.value))) else "") + (if p.prefer then " prefer" else "")
  }

  lemma OptionsSent(p: Params)
    ensures Spaced(OptionWords(p)) == OptionText(p)
  {
    var prefer := if p.prefer then ["prefer"] else [];
    SpacedFirst("prefer", []);
    assert Spaced(prefer) == if p.prefer then " prefer" else "" by {
      assert ["prefer"] + [] == ["prefer"];
    }
    if p.key.Some? {
      var key := Decimal(p.key.value);
      assert OptionWords(p) == ["key"] + ([key] + prefer);
      SpacedFirst("key", [key] + prefer);
      SpacedFirst(key, prefer);
      OptionsGrouped("key", key, Spaced(prefer));
    }
  }

  lemma OptionsGrouped(a: string, b: string, c: string)
    ensures " " + (a + (" " + (b + c))) == " " + (a + (" " + b)) + c
  {
  }

  lemma TrustSent(ids: seq<int>)
    requires ids != []
    ensures Render(Trust(ids)) == ":config trustedkey" + (" " + JoinWith(' ', DecimalWords(ids)))
    ensures Render(Untrust(ids)) == ":config unconfig trustedkey" + (" " + JoinWith(' ', DecimalWords(ids)))
  {
    SpacedIsJoined(DecimalWords(ids));
    TrustWords();
    TwoWords(":config", "trustedkey", DecimalWords(ids));
    ThreeWords(":config", "unconfig", "trustedkey", DecimalWords(ids));
  }

  lemma KeyLineWritten(id: int, password: string)
    ensures KEYS_HEADER == "#This is generated from ops-ntpd"
    ensures KeyLine(id, password) == " " + (Decimal(id) + (" " + ("MD5" + (" " + password))))
  {
    assert [Decimal(id), "MD5", password] == [Decimal(id)] + (["MD5"] + ([password] + []));
    SpacedFirst(Decimal(id), ["MD5"] + ([password] + []));
    SpacedFirst("MD5", [password] + []);
    SpacedFirst(password, []);
  }

  function ReadIds(ws: seq<string>): seq<int> {
    if ws == [] then [] else [Atoi(ws[0])] + ReadIds(ws[1..])
  }

  function ReadOptions(version: string, ws: seq<string>): Option<Params> {
    if ws == [] then Some(Params(version, None, false))
    else if ws == ["prefer"] then Some(Params(version, None, true))
    else if |ws| == 2 && ws[0] == "key" then Some(Params(version, Some(Atoi(ws[1])), false))
    else if |ws| == 3 && ws[0] == "key" && ws[2] == "prefer" then
      Some(Params(version, Some(Atoi(ws[1])), true))
    else None
  }

  /** How the daemon reads one command line. */
  function ReadCommand(line: string): Option<Command> {
    var ws := Words(line);
    if |ws| < 3 || ws[0] != ":config" then None
    else if ws[1] == "server" && |ws| >= 5 && ws[3] == "version" then
      (match ReadOptions(ws[4], ws[5..])
       case Some(p) => Some(Server(ws[2], p))
       case None => None)
    else if ws[1] == "unconfig" && |ws| == 3 then Some(Unconfig(ws[2]))
    else if ws[1] == "unconfig" && ws[2] == "trustedkey" then Some(Untrust(ReadIds(ws[3..])))
    else if ws[1] == "trustedkey" then Some(Trust(ReadIds(ws[2..])))
    else None
  }

  /** Fields that survive white-space splitting; a trust command names at least one key. */
  predicate Sendable(c: Command) {
    match c
    case Unconfig(a) => IsToken(a)
    case Server(a, p) => IsToken(a) && IsToken(p.version)
    case Untrust(ids) => ids != []
    case Trust(ids) => ids != []
  }

  lemma {:induction false} ReadIdsOfDecimals(ids: seq<int>)
    ensures ReadIds(DecimalWords(ids)) == ids
    ensures |DecimalWords(ids)| == |ids|
    ensures forall i :: 0 <= i < |DecimalWords(ids)| ==> IsToken(DecimalWords(ids)[i])
  {
    if ids != [] {
      AtoiDecimal(ids[0]);
      ReadIdsOfDecimals(ids[1..]);
    }
  }

  lemma FixedWordsAreTokens()
    ensures IsToken(":config") && IsToken("server") && IsToken("unconfig") && IsToken("trustedkey")
    ensures IsToken("version") && IsToken("key") && IsToken("prefer")
  {
  }

  lemma ReadOptionsOfWords(p: Params)
    ensures ReadOptions(p.version, OptionWords(p)) == Some(p)
    ensures forall i :: 0 <= i < |OptionWords(p)| ==> IsToken(OptionWords(p)[i])
  {
    if p.key.Some? {
      AtoiDecimal(p.key.value);
    }
  }

  lemma CommandWordsAreTokens(c: Command)
    requires Sendable(c)
    ensures forall i :: 0 <= i < |CommandWords(c)| ==> IsToken(CommandWords(c)[i])
  {
    FixedWordsAreTokens();
    match c
    case Unconfig(a) =>
    case Server(a, p) => ReadOptionsOfWords(p);
    case Untrust(ids) => ReadIdsOfDecimals(ids);
    case Trust(ids) => ReadIdsOfDecimals(ids);
  }

  /** The daemon reads back exactly the command that was rendered. */
  lemma CommandRoundTrip(c: Command)
    requires Sendable(c)
    ensures ReadCommand(Render(c)) == Some(c)
  {
    var ws := CommandWords(c);
    CommandWordsAreTokens(c);
    WordsOfLine(ws);
    match c
    case Unconfig(a) =>
    case Server(a, p) =>
      ReadOptionsOfWords(p);
      assert ws[5..] == OptionWords(p);
    case Untrust(ids) =>
      ReadIdsOfDecimals(ids);
      assert ws[3..] == DecimalWords(ids);
    case Trust(ids) =>
      ReadIdsOfDecimals(ids);
      assert ws[2..] == DecimalWords(ids);
  }

  /** One line delivered to the daemon; an unreadable line changes nothing. */
  function StepText(policy: Policy, s: State, line: string): State {
    match ReadCommand(line)
    case Some(c) => Step(policy, s, c)
    case None => s
  }

  function ExecText(policy: Policy, s: State, lines: seq<string>): State
    decreases |lines|
  {
    if lines == [] then s else ExecText(policy, StepText(policy, s, lines[0]), lines[1..])
  }

  /** Sending text does what the commands mean. */
  lemma {:induction false} ExecTextIsExec(policy: Policy, s: State, cs: seq<Command>)
    requires forall i :: 0 <= i < |cs| ==> Sendable(cs[i])
    ensures ExecText(policy, s, RenderAll(cs)) == Exec(policy, s, cs)
    decreases |cs|
  {
    if cs != [] {
      CommandRoundTrip(cs[0]);
      assert RenderAll(cs)[1..] == RenderAll(cs[1..]);
      ExecTextIsExec(policy, Step(policy, s, cs[0]), cs[1..]);
    }
  }

  // ---------- the keys file ----------

  datatype KeyEntry = KeyEntry(password: string, trust: bool)
  type KeyDb = map<int, KeyEntry>

  function Passwords(db: KeyDb): map<int, string> {
    map k | k in db :: db[k].password
  }

  /** `" %s MD5 %s"` */
  function KeyLine(id: int, password: string): string {
    Spaced([Decimal(id), "MD5", password])
  }

  function KeyLines(ids: seq<int>, db: KeyDb): (lines: seq<string>)
    requires forall id :: id in ids ==> id in db
    ensures |lines| == |ids|
  {
    if ids == [] then [] else [KeyLine(ids[0], db[ids[0]].password)] + KeyLines(ids[1..], db)
  }

  const KEYS_HEADER := "#This is generated from ops-ntpd"

  function FileText(header: string, control: string, body: string): string {
    header + "\n" + (control + "\n" + (body + "\n"))
  }

  /** The whole keys file, the cached keys listed in the order `ids`. */
  function KeysFile(controlPassword: string, ids: seq<int>, db: KeyDb): string
    requires forall id :: id in ids ==> id in db
  {
    FileText(KEYS_HEADER, KeyLine(CONTROL_KEY, controlPassword), JoinWith('\n', KeyLines(ids, db)))
  }

  /** One line of the keys file: comments, blank lines and malformed lines load nothing. */
  function LoadLine(loaded: map<int, string>, line: string): map<int, string> {
    var ws := Words(line);
    if |ws| == 3 && ws[0][0] != '#' && ws[1] == "MD5" then loaded[Atoi(ws[0]) := ws[2]] else loaded
  }

  function LoadLines(loaded: map<int, string>, lines: seq<string>): map<int, string>
    decreases |lines|
  {
    if lines == [] then loaded else LoadLines(LoadLine(loaded, lines[0]), lines[1..])
  }

  /** `readkeys`: the keys loaded from a keys file; a later line for an id wins. */
  function ReadKeys(content: string): map<int, string> {
    LoadLines(map[], SplitOn('\n', content))
  }

  lemma KeyLineLoads(loaded: map<int, string>, id: int, password: string)
    requires IsToken(password)
    ensures LoadLine(loaded, KeyLine(id, password)) == loaded[id := password]
    ensures Free('\n', KeyLine(id, password))
  {
    AtoiDecimal(id);
    WordsOfSpaced([Decimal(id), "MD5", password]);
    assert Decimal(id)[0] != '#';
    SpacedIsOneLine([Decimal(id), "MD5", password]);
  }

  /** Words never contain line breaks, so a spaced list of words stays on one line. */
  lemma {:induction false} SpacedIsOneLine(ws: seq<string>)
    requires forall i :: 0 <= i < |ws| ==> IsToken(ws[i])
    ensures Free('\n', Spaced(ws))
  {
    if ws != [] {
      SpacedIsOneLine(ws[1..]);
      var w, rest := " " + ws[0], Spaced(ws[1..]);
      assert Free('\n', w) by {
        assert forall i :: 0 < i < |w| ==> w[i] == ws[0][i - 1];
      }
      assert Spaced(ws) == w + rest;
    }
  }

  lemma {:induction false} KeyLinesLoad(loaded: map<int, string>, ids: seq<int>, db: KeyDb)
    requires forall id :: id in ids ==> id in db && IsToken(db[id].password)
    ensures LoadLines(loaded, KeyLines(ids, db)) == loaded + PasswordsOf(ids, db)
    decreases |ids|
  {
    if ids == [] {
      assert loaded + PasswordsOf(ids, db) == loaded;
    } else {
      KeyLineLoads(loaded, ids[0], db[ids[0]].password);
      assert KeyLines(ids, db)[1..] == KeyLines(ids[1..], db);
      KeyLinesLoad(loaded[ids[0] := db[ids[0]].password], ids[1..], db);
      PasswordsOfCons(loaded, ids, db);
    }
  }

  function PasswordsOf(ids: seq<int>, db: KeyDb): map<int, string>
    requires forall id :: id in ids ==> id in db
  {
    map id | id in ids :: db[id].password
  }

  lemma {:induction false} PasswordsOfCons(loaded: map<int, string>, ids: seq<int>, db: KeyDb)
    requires ids != [] && forall id :: id in ids ==> id in db
    ensures ids[0] in db
    ensures loaded[ids[0] := db[ids[0]].password] + PasswordsOf(ids[1..], db) == loaded + PasswordsOf(ids, db)
  {
    assert forall id :: id in ids <==> id == ids[0] || id in ids[1..];
  }

  lemma {:induction false} KeyLinesFree(ids: seq<int>, db: KeyDb)
    requires forall id :: id in ids ==> id in db && IsToken(db[id].password)
    ensures forall i :: 0 <= i < |ids| ==> Free('\n', KeyLines(ids, db)[i])
  {
    if ids != [] {
      KeyLineLoads(map[], ids[0], db[ids[0]].password);
      KeyLinesFree(ids[1..], db);
    }
  }

  lemma {:induction false} LoadLinesAppend(loaded: map<int, string>, a: seq<string>, b: seq<string>)
    ensures LoadLines(loaded, a + b) == LoadLines(LoadLines(loaded, a), b)
    decreases |a|
  {
    if a == [] {
      assert a + b == b;
    } else {
      assert (a + b)[1..] == a[1..] + b;
      LoadLinesAppend(LoadLine(loaded, a[0]), a[1..], b);
    }
  }

  /** The lines of a file text, the empty piece after the last line break included. */
  lemma {:induction false} LinesOfFileText(header: string, control: string, lines: seq<string>)
    requires Free('\n', header) && Free('\n', control)
    requires lines != [] && forall i :: 0 <= i < |lines| ==> Free('\n', lines[i])
    ensures SplitOn('\n', FileText(header, control, JoinWith('\n', lines))) == [header, control] + lines + [""]
  {
    var body := JoinWith('\n', lines);
    JoinEnds(lines);
    SplitOfJoin('\n', lines + [""]);
    SplitCons('\n', control, body + "\n");
    SplitCons('\n', header, control + "\n" + (body + "\n"));
    assert [header] + ([control] + (lines + [""])) == [header, control] + lines + [""];
  }

  lemma {:induction false} JoinEnds(lines: seq<string>)
    requires lines != []
    ensures JoinWith('\n', lines + [""]) == JoinWith('\n', lines) + "\n"
  {
    if |lines| > 1 {
      assert (lines + [""])[1..] == lines[1..] + [""];
      JoinEnds(lines[1..]);
    } else {
      assert (lines + [""])[1..] == [""];
    }
  }

  /** Reading a file text with an idle header: the control line, then the other lines. */
  lemma {:induction false} ReadFileText(header: string, id: int, password: string, lines: seq<string>)
    requires header != "" && header[0] == '#' && Free('\n', header) && IsToken(password)
    requires lines != [] && forall i :: 0 <= i < |lines| ==> Free('\n', lines[i])
    ensures ReadKeys(FileText(header, KeyLine(id, password), JoinWith('\n', lines))) == LoadLines(map[id := password], lines)
  {
    var line := KeyLine(id, password);
    KeyLineLoads(map[], id, password);
    LinesOfFileText(header, line, lines);
    var all := [header, line] + lines + [""];
    assert all[1..] == [line] + lines + [""] && all[1..][1..] == lines + [""];
    assert LoadLines(map[], all) == LoadLines(map[], all[1..]);
    assert all[1..][0] == line;
    LoadLinesAppend(map[id := password], lines, [""]);
  }

  /**
   Reading the generated keys file loads the control key and the cached keys, nothing else,
   for every cache (the empty one included) and every order of its entries.
   */
  lemma {:induction false} KeysFileRoundTrip(controlPassword: string, ids: seq<int>, db: KeyDb)
    requires IsToken(controlPassword)
    requires Enumerates(ids, db.Keys)
    requires forall id :: id in db ==> IsToken(db[id].password)
    ensures ReadKeys(KeysFile(controlPassword, ids, db)) == map[CONTROL_KEY := controlPassword] + Passwords(db)
  {
    var control := map[CONTROL_KEY := controlPassword];
    assert KEYS_HEADER[0] == '#' && Free('\n', KEYS_HEADER);
    assert PasswordsOf(ids, db) == Passwords(db);
    if ids == [] {
      ReadFileText(KEYS_HEADER, CONTROL_KEY, controlPassword, [""]);
      assert Passwords(db) == map[];
    } else {
      KeyLinesFree(ids, db);
      ReadFileText(KEYS_HEADER, CONTROL_KEY, controlPassword, KeyLines(ids, db));
      KeyLinesLoad(control, ids, db);
    }
  }
}
