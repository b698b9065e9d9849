/** Command lines: the grammar of the configuration commands and runs over typed lines. */
module CommandLine {
  import opened Wrappers
  import opened Text
  import opened Cli

  /** A number token of the grammar, `<lo-hi>`. */
  predicate RangeToken(w: string, lo: int, hi: int) {
    w != "" && AllDigits(w) && lo <= DigitsValue(w) <= hi
  }

  /** Of the numbers printed in decimal exactly those from `lo` to `hi` are accepted. */
  lemma RangeExactly(n: int, lo: nat, hi: nat)
    ensures RangeToken(Decimal(n), lo, hi) <==> lo <= n <= hi
  {
    if n < 0 {
      assert Decimal(n)[0] == '-';
    }
  }

  datatype Options = Options(prefer: bool, version: Option<string>, keyId: Option<string>)

  /** `{prefer | version <3-4> | key-id <1-65534>}`: any order, each option at most once. */
  function ParseOptions(ws: seq<string>, seen: Options): Option<Options>
    decreases |ws|
  {
    if ws == [] then Some(seen)
    else if ws[0] == "prefer" && !seen.prefer then ParseOptions(ws[1..], seen.(prefer := true))
    else if |ws| >= 2 && ws[0] == "version" && seen.version.None? && RangeToken(ws[1], 3, 4) then
      ParseOptions(ws[2..], seen.(version := Some(ws[1])))
    else if |ws| >= 2 && ws[0] == "key-id" && seen.keyId.None? && RangeToken(ws[1], KEY_ID_MIN, KEY_ID_MAX) then
      ParseOptions(ws[2..], seen.(keyId := Some(ws[1])))
    else None
  }

  const NO_OPTIONS := Options(false, None, None)

  predicate KeyToken(w: string) {
    RangeToken(w, KEY_ID_MIN, KEY_ID_MAX)
  }

  /** The words after an optional `no`. */
  function ParseForm(no: bool, ws: seq<string>): Option<Command> {
    if |ws| < 3 || ws[0] != "ntp" then None
    else if ws[1] == "server" && no then
      if |ws| == 3 then Some(NoServer(ws[2])) else None
    else if ws[1] == "server" then
      (match ParseOptions(ws[3..], NO_OPTIONS)
       case Some(o) => Some(Server(ws[2], o.prefer, o.version, o.keyId))
       case None => None)
    else if ws[1] == "authentication-key" && no then
      if |ws| == 3 && KeyToken(ws[2]) then Some(NoAuthKey(ws[2])) else None
    else if ws[1] == "authentication-key" then
      if |ws| == 5 && KeyToken(ws[2]) && ws[3] == "md5" then Some(AuthKey(ws[2], ws[4])) else None
    else if ws[1] == "trusted-key" then
      if |ws| == 3 && KeyToken(ws[2]) then Some(TrustedKey(ws[2], !no)) else None
    else if ws == ["ntp", "authentication", "enable"] then Some(AuthEnable(!no))
    else None
  }

  function ParseWords(ws: seq<string>): Option<Command> {
    if ws != [] && ws[0] == "no" then ParseForm(true, ws[1..]) else ParseForm(false, ws)
  }

  function ParseLine(line: string): Option<Command> {
    ParseWords(Words(line))
  }

  /** A line that is no configuration command changes nothing. */
  function ExecLine(env: Env, db: Db, line: string): Db {
    match ParseLine(line)
    case Some(c) => Apply(env, db, c).0
    case None => db
  }

  function RunLines(env: Env, db: Db, lines: seq<string>): Db
    decreases |lines|
  {
    if lines == [] then db else RunLines(env, ExecLine(env, db, lines[0]), lines[1..])
  }

  /** The commands among the lines. */
  function Understood(lines: seq<string>): seq<Command> {
    if lines == [] then []
    else (match ParseLine(lines[0]) case Some(c) => [c] case None => []) + Understood(lines[1..])
  }

  /** Typing lines runs the commands among them, so all that holds of command sequences holds of typed lines. */
  lemma {:induction false} LinesAreCommands(env: Env, db: Db, lines: seq<string>)
    ensures RunLines(env, db, lines) == Run(env, db, Understood(lines))
    decreases |lines|
  {
    if lines != [] {
      var rest := Understood(lines[1..]);
      match ParseLine(lines[0])
      case Some(c) =>
        assert ([c] + rest)[1..] == rest;
        LinesAreCommands(env, Apply(env, db, c).0, lines[1..]);
      case None =>
        assert [] + rest == rest;
        LinesAreCommands(env, db, lines[1..]);
    }
  }

  // ---------- what typing adds to the run invariant ----------

  predicate VersionToken(w: string) {
    RangeToken(w, 3, 4)
  }

  /** Names and passwords are words, versions are plain numbers. */
  predicate Typed(db: Db) {
    && (forall id :: id in db.keys ==> IsToken(db.keys[id].password))
    && (forall n :: n in db.assocs ==> IsToken(n) && VersionToken(db.assocs[n].version))
  }

  predicate TypedCommand(c: Command) {
    match c
    case Server(name, _, version, keyId) =>
      IsToken(name) && (version.Some? ==> VersionToken(version.value)) && (keyId.Some? ==> KeyToken(keyId.value))
    case NoServer(name) => IsToken(name)
    case AuthKey(key, password) => KeyToken(key) && IsToken(password)
    case NoAuthKey(key) => KeyToken(key)
    case TrustedKey(key, _) => KeyToken(key)
    case AuthEnable(_) => true
  }

  predicate TypedOptions(o: Options) {
    (o.version.Some? ==> VersionToken(o.version.value)) && (o.keyId.Some? ==> KeyToken(o.keyId.value))
  }

  lemma {:induction false} ParsedOptionsTyped(ws: seq<string>, seen: Options)
    requires TypedOptions(seen) && ParseOptions(ws, seen).Some?
    ensures TypedOptions(ParseOptions(ws, seen).value)
    decreases |ws|
  {
    if ws == [] {
    } else if ws[0] == "prefer" && !seen.prefer {
      ParsedOptionsTyped(ws[1..], seen.(prefer := true));
    } else if ws[0] == "version" && seen.version.None? {
      ParsedOptionsTyped(ws[2..], seen.(version := Some(ws[1])));
    } else {
      ParsedOptionsTyped(ws[2..], seen.(keyId := Some(ws[1])));
    }
  }

  lemma {:induction false} ParsedFormTyped(no: bool, ws: seq<string>)
    requires forall i :: 0 <= i < |ws| ==> IsToken(ws[i])
    requires ParseForm(no, ws).Some?
    ensures TypedCommand(ParseForm(no, ws).value)
  {
    if ws[1] == "server" && !no {
      ParsedOptionsTyped(ws[3..], NO_OPTIONS);
    }
  }

  /** Whatever is typed, the command's fields are words and its numbers are in range. */
  lemma ParsedLineTyped(line: string)
    requires ParseLine(line).Some?
    ensures TypedCommand(ParseLine(line).value)
  {
    var ws := Words(line);
    if ws != [] && ws[0] == "no" {
      ParsedFormTyped(true, ws[1..]);
    } else {
      ParsedFormTyped(false, ws);
    }
  }

  lemma SetServerKeepsTyped(env: Env, db: Db, c: Command)
    requires Typed(db) && TypedCommand(c) && c.Server?
    ensures Typed(SetServer(env, db, c).0)
  {
  }

  lemma ApplyKeepsTyped(env: Env, db: Db, c: Command)
    requires Typed(db) && TypedCommand(c)
    ensures Typed(Apply(env, db, c).0)
  {
    if c.Server? {
      SetServerKeepsTyped(env, db, c);
    }
  }

  /** Every state reached by typing lines satisfies the run invariant and is typed. */
  lemma {:induction false} RunLinesKeeps(env: Env, db: Db, lines: seq<string>)
    requires Inv(env, db) && Typed(db)
    ensures Inv(env, RunLines(env, db, lines)) && Typed(RunLines(env, db, lines))
    decreases |lines|
  {
    if lines != [] {
      if ParseLine(lines[0]).Some? {
        ParsedLineTyped(lines[0]);
        ApplyKeepsInv(env, db, ParseLine(lines[0]).value);
        ApplyKeepsTyped(env, db, ParseLine(lines[0]).value);
      }
      RunLinesKeeps(env, ExecLine(env, db, lines[0]), lines[1..]);
    }
  }

  // ---------- printing commands ----------

  function OptionalWords(name: string, value: Option<string>): seq<string> {
    if value.Some? then [name, value.value] else []
  }

  /** The option text in the printer's order: key, version, prefer. */
  function ServerOptionWords(c: Command): seq<string>
    requires c.Server?
  {
    OptionalWords("key-id", c.keyId) + OptionalWords("version", c.version) + (if c.prefer then ["prefer"] else [])
  }

  /** The words of a command, options in the printer's order. */
  function PrintedWords(c: Command): seq<string> {
    match c
    case Server(name, _, _, _) => ["ntp", "server", name] + ServerOptionWords(c)
    case NoServer(name) => ["no", "ntp", "server", name]
    case AuthKey(key, password) => ["ntp", "authentication-key", key, "md5", password]
    case NoAuthKey(key) => ["no", "ntp", "authentication-key", key]
    case TrustedKey(key, trust) => if trust then ["ntp", "trusted-key", key] else ["no", "ntp", "trusted-key", key]
    case AuthEnable(enable) => if enable then ["ntp", "authentication", "enable"] else ["no", "ntp", "authentication", "enable"]
  }

  /** The line of a command; a configuration consists of positive forms. */
  function Print(c: Command): string {
    Line(PrintedWords(c))
  }

  lemma RangeTokenIsToken(w: string, lo: int, hi: int)
    requires RangeToken(w, lo, hi)
    ensures IsToken(w)
  {
    assert forall i :: 0 <= i < |w| ==> IsDigit(w[i]);
  }

  lemma KeywordsAreTokens()
    ensures IsToken("ntp") && IsToken("server") && IsToken("prefer") && IsToken("version") && IsToken("key-id")
    ensures IsToken("authentication-key") && IsToken("md5") && IsToken("trusted-key")
    ensures IsToken("no") && IsToken("authentication") && IsToken("enable")
  {
  }

  lemma OptionWordsAreTokens(c: Command)
    requires c.Server? && TypedCommand(c)
    ensures forall i :: 0 <= i < |ServerOptionWords(c)| ==> IsToken(ServerOptionWords(c)[i])
  {
    KeywordsAreTokens();
    if c.version.Some? {
      RangeTokenIsToken(c.version.value, 3, 4);
    }
    if c.keyId.Some? {
      RangeTokenIsToken(c.keyId.value, KEY_ID_MIN, KEY_ID_MAX);
    }
  }

  lemma KeyOptionParses(w: string, rest: seq<string>, seen: Options)
    requires RangeToken(w, KEY_ID_MIN, KEY_ID_MAX) && seen.keyId.None?
    ensures ParseOptions(["key-id", w] + rest, seen) == ParseOptions(rest, seen.(keyId := Some(w)))
  {
    assert (["key-id", w] + rest)[2..] == rest;
  }

  lemma VersionOptionParses(w: string, rest: seq<string>, seen: Options)
    requires RangeToken(w, 3, 4) && seen.version.None?
    ensures ParseOptions(["version", w] + rest, seen) == ParseOptions(rest, seen.(version := Some(w)))
  {
    assert (["version", w] + rest)[2..] == rest;
  }

  lemma PreferOptionParses(prefer: bool, seen: Options)
    requires !seen.prefer
    ensures ParseOptions(if prefer then ["prefer"] else [], seen) == Some(seen.(prefer := prefer))
  {
    assert ["prefer"][1..] == [];
  }

  lemma OptionsRoundTrip(c: Command)
    requires c.Server? && TypedCommand(c)
    ensures ParseOptions(ServerOptionWords(c), NO_OPTIONS) == Some(Options(c.prefer, c.version, c.keyId))
    ensures forall i :: 0 <= i < |ServerOptionWords(c)| ==> IsToken(ServerOptionWords(c)[i])
  {
    OptionWordsAreTokens(c);
    var key, version := OptionalWords("key-id", c.keyId), OptionalWords("version", c.version);
    var prefer := if c.prefer then ["prefer"] else [];
    var o1 := NO_OPTIONS.(keyId := c.keyId);
    assert ServerOptionWords(c) == key + (version + prefer);
    if c.keyId.Some? {
      KeyOptionParses(c.keyId.value, version + prefer, NO_OPTIONS);
    } else {
      assert key + (version + prefer) == version + prefer;
    }
    if c.version.Some? {
      VersionOptionParses(c.version.value, prefer, o1);
    } else {
      assert version + prefer == prefer;
    }
    PreferOptionParses(c.prefer, o1.(version := c.version));
  }

  // ---------- exactly which lines are commands ----------

  /** One option as it is typed. */
  datatype Given = GivenPrefer | GivenVersion(version: string) | GivenKey(keyId: string)

  function GivenWords(g: Given): seq<string> {
    match g
    case GivenPrefer => ["prefer"]
    case GivenVersion(version) => ["version", version]
    case GivenKey(keyId) => ["key-id", keyId]
  }

  function GivenText(gs: seq<Given>): seq<string> {
    if gs == [] then [] else GivenWords(gs[0]) + GivenText(gs[1..])
  }

  predicate SameOption(g: Given, h: Given) {
    (g.GivenPrefer? && h.GivenPrefer?) || (g.GivenVersion? && h.GivenVersion?) || (g.GivenKey? && h.GivenKey?)
  }

  /** Any order, each option at most once, numbers in range. */
  predicate Permitted(gs: seq<Given>) {
    && (forall i, j :: 0 <= i < j < |gs| ==> !SameOption(gs[i], gs[j]))
    && (forall i :: 0 <= i < |gs| ==> InRange(gs[i]))
  }

  predicate InRange(g: Given) {
    match g
    case GivenPrefer => true
    case GivenVersion(version) => RangeToken(version, 3, 4)
    case GivenKey(keyId) => RangeToken(keyId, 1, 65534)
  }

  /** What the options given say. */
  ghost predicate SayOptions(gs: seq<Given>, prefer: bool, version: Option<string>, keyId: Option<string>) {
    && (prefer <==> GivenPrefer in gs)
    && (forall v :: version == Some(v) <==> GivenVersion(v) in gs)
    && (forall k :: keyId == Some(k) <==> GivenKey(k) in gs)
  }

  function NoWord(no: bool): seq<string> {
    if no then ["no"] else []
  }

  /** The words of a command, with its options in any order. */
  ghost predicate Spells(ws: seq<string>, c: Command) {
    match c
    case Server(name, prefer, version, keyId) =>
      exists gs :: Permitted(gs) && SayOptions(gs, prefer, version, keyId) && ws == ["ntp", "server", name] + GivenText(gs)
    case NoServer(name) => ws == ["no", "ntp", "server", name]
    case AuthKey(key, password) => KeyToken(key) && ws == ["ntp", "authentication-key", key, "md5", password]
    case NoAuthKey(key) => KeyToken(key) && ws == ["no", "ntp", "authentication-key", key]
    case TrustedKey(key, trust) => KeyToken(key) && ws == NoWord(!trust) + ["ntp", "trusted-key", key]
    case AuthEnable(enable) => ws == NoWord(!enable) + ["ntp", "authentication", "enable"]
  }

  function Put(o: Options, g: Given): Options {
    match g
    case GivenPrefer => o.(prefer := true)
    case GivenVersion(version) => o.(version := Some(version))
    case GivenKey(keyId) => o.(keyId := Some(keyId))
  }

  function PutAll(o: Options, gs: seq<Given>): Options
    decreases |gs|
  {
    if gs == [] then o else PutAll(Put(o, gs[0]), gs[1..])
  }

  /** The option has not been given yet. */
  predicate Open(o: Options, g: Given) {
    match g
    case GivenPrefer => !o.prefer
    case GivenVersion(_) => o.version.None?
    case GivenKey(_) => o.keyId.None?
  }

  predicate AllOpen(o: Options, gs: seq<Given>) {
    forall i :: 0 <= i < |gs| ==> Open(o, gs[i])
  }

  lemma FirstGivenParses(g: Given, rest: seq<string>, seen: Options)
    requires InRange(g) && Open(seen, g)
    ensures ParseOptions(GivenWords(g) + rest, seen) == ParseOptions(rest, Put(seen, g))
  {
    match g
    case GivenPrefer => assert (["prefer"] + rest)[1..] == rest;
    case GivenVersion(version) => VersionOptionParses(version, rest, seen);
    case GivenKey(keyId) => KeyOptionParses(keyId, rest, seen);
  }

  /** Options given in any order parse. */
  lemma {:induction false} GivenParse(gs: seq<Given>, seen: Options)
    requires Permitted(gs) && AllOpen(seen, gs)
    ensures ParseOptions(GivenText(gs), seen) == Some(PutAll(seen, gs))
  {
    if gs != [] {
      assert InRange(gs[0]) && Open(seen, gs[0]);
      FirstGivenParses(gs[0], GivenText(gs[1..]), seen);
      forall i | 0 <= i < |gs[1..]| ensures Open(Put(seen, gs[0]), gs[1..][i]) {
        assert !SameOption(gs[0], gs[i + 1]) && Open(seen, gs[i + 1]);
      }
      GivenParse(gs[1..], Put(seen, gs[0]));
    }
  }

  /** What parses is such a text. */
  lemma {:induction false} ParsedIsGiven(ws: seq<string>, seen: Options) returns (gs: seq<Given>)
    requires ParseOptions(ws, seen).Some?
    ensures Permitted(gs) && AllOpen(seen, gs) && GivenText(gs) == ws
    ensures ParseOptions(ws, seen) == Some(PutAll(seen, gs))
    decreases |ws|
  {
    if ws == [] {
      gs := [];
    } else {
      var g := FirstGiven(ws, seen);
      var rest := ParsedIsGiven(ws[|GivenWords(g)|..], Put(seen, g));
      gs := [g] + rest;
      forall i, j | 0 <= i < j < |gs| ensures !SameOption(gs[i], gs[j]) {
        assert Open(Put(seen, g), rest[j - 1]);
      }
      forall i | 0 <= i < |gs| ensures Open(seen, gs[i]) {
        assert i > 0 ==> Open(Put(seen, g), rest[i - 1]);
      }
      assert gs[1..] == rest;
    }
  }

  lemma FirstGiven(ws: seq<string>, seen: Options) returns (g: Given)
    requires ws != [] && ParseOptions(ws, seen).Some?
    ensures InRange(g) && Open(seen, g) && GivenWords(g) <= ws
    ensures ParseOptions(ws, seen) == ParseOptions(ws[|GivenWords(g)|..], Put(seen, g))
  {
    if ws[0] == "prefer" && !seen.prefer {
      g := GivenPrefer;
    } else if ws[0] == "version" && seen.version.None? {
      g := GivenVersion(ws[1]);
    } else {
      g := GivenKey(ws[1]);
    }
  }

  /** Each option put is there, and stays when the others are put. */
  lemma {:induction false} PutAllSays(gs: seq<Given>, seen: Options)
    requires Permitted(gs) && AllOpen(seen, gs)
    ensures var o := PutAll(seen, gs);
      && (o.prefer <==> seen.prefer || GivenPrefer in gs)
      && (forall v :: o.version == Some(v) <==> seen.version == Some(v) || GivenVersion(v) in gs)
      && (forall k :: o.keyId == Some(k) <==> seen.keyId == Some(k) || GivenKey(k) in gs)
  {
    if gs != [] {
      assert Open(seen, gs[0]);
      forall i | 0 <= i < |gs[1..]| ensures Open(Put(seen, gs[0]), gs[1..][i]) {
        assert !SameOption(gs[0], gs[i + 1]) && Open(seen, gs[i + 1]);
      }
      PutAllSays(gs[1..], Put(seen, gs[0]));
      assert gs == [gs[0]] + gs[1..];
    }
  }

  lemma SaidOnce(gs: seq<Given>, prefer: bool, version: Option<string>, keyId: Option<string>)
    requires Permitted(gs)
    ensures SayOptions(gs, prefer, version, keyId) <==> PutAll(NO_OPTIONS, gs) == Options(prefer, version, keyId)
  {
    PutAllSays(gs, NO_OPTIONS);
    var o := PutAll(NO_OPTIONS, gs);
    if SayOptions(gs, prefer, version, keyId) {
      assert forall v :: o.version == Some(v) <==> version == Some(v);
      assert forall k :: o.keyId == Some(k) <==> keyId == Some(k);
    }
  }

  /** The options of a line parse exactly when they are some options, in some order, each at most once. */
  lemma OptionsParseExactly(ws: seq<string>, prefer: bool, version: Option<string>, keyId: Option<string>)
    ensures ParseOptions(ws, NO_OPTIONS) == Some(Options(prefer, version, keyId)) <==>
      exists gs :: Permitted(gs) && SayOptions(gs, prefer, version, keyId) && ws == GivenText(gs)
  {
    if ParseOptions(ws, NO_OPTIONS) == Some(Options(prefer, version, keyId)) {
      var gs := ParsedIsGiven(ws, NO_OPTIONS);
      SaidOnce(gs, prefer, version, keyId);
    }
    if gs :| Permitted(gs) && SayOptions(gs, prefer, version, keyId) && ws == GivenText(gs) {
      SaidOnce(gs, prefer, version, keyId);
      GivenParse(gs, NO_OPTIONS);
    }
  }

  lemma ServerParsesExactly(ws: seq<string>, c: Command)
    requires c.Server?
    ensures ParseWords(ws) == Some(c) <==> Spells(ws, c)
  {
    if |ws| >= 3 && ws[0] == "ntp" && ws[1] == "server" && ws[2] == c.name {
      OptionsParseExactly(ws[3..], c.prefer, c.version, c.keyId);
      assert ws == ["ntp", "server", c.name] + ws[3..];
    }
  }

  lemma OtherParsesExactly(ws: seq<string>, c: Command)
    requires !c.Server?
    ensures ParseWords(ws) == Some(c) <==> Spells(ws, c)
  {
  }

  /** A line is a command exactly when its words spell that command. */
  lemma LineParsesExactly(line: string, c: Command)
    ensures ParseLine(line) == Some(c) <==> Spells(Words(line), c)
  {
    if c.Server? {
      ServerParsesExactly(Words(line), c);
    } else {
      OtherParsesExactly(Words(line), c);
    }
  }

  lemma PrintedServerRoundTrip(c: Command)
    requires c.Server? && TypedCommand(c)
    ensures ParseLine(Print(c)) == Some(c)
  {
    OptionsRoundTrip(c);
    KeywordsAreTokens();
    var ws := ["ntp", "server", c.name] + ServerOptionWords(c);
    WordsOfLine(ws);
    assert ws[3..] == ServerOptionWords(c);
  }

  lemma PrintedWordsAreTokens(c: Command)
    requires TypedCommand(c) && !c.Server?
    ensures Words(Print(c)) == PrintedWords(c)
  {
    KeywordsAreTokens();
    if c.AuthKey? || c.NoAuthKey? || c.TrustedKey? {
      RangeTokenIsToken(c.key, KEY_ID_MIN, KEY_ID_MAX);
    }
    WordsOfLine(PrintedWords(c));
  }

  /** Typing a printed command means that command, in every form. */
  lemma PrintRoundTrip(c: Command)
    requires TypedCommand(c)
    ensures ParseLine(Print(c)) == Some(c)
  {
    if c.Server? {
      PrintedServerRoundTrip(c);
    } else {
      PrintedWordsAreTokens(c);
      LineParsesExactly(Print(c), c);
    }
  }
}
