/** A record as `ntpq` prints it, with the names the daemon searches for and a one-digit hour. */
module NtpqExample {
  import opened Wrappers
  import opened Text
  import opened NtpqText
  import opened NtpqRecord
  import NtpqParser
  import opened Unfolding

  // ---------- which names a field mentions ----------

  /** A name with a character that a text lacks is not in that text. */
  lemma LacksCharacter(s: string, name: string, c: char)
    requires c in name && Free(c, s) && c != ' '
    ensures !Contains(Flatten(s), name)
  {
    FlattenFree(c, s);
    var i :| 0 <= i < |name| && name[i] == c;
    var t := Flatten(s);
    forall j | 0 <= j <= |t| ensures !(name <= t[j..]) {
      if j + i < |t| {
        assert t[j..][i] == t[j + i] != name[i];
      }
    }
  }

  lemma FlagLacks(text: string, name: string, c: char)
    requires c in name && Free(c, text) && c != ' '
    ensures !Mentions(Flag("", text, ""), name)
  {
    assert "" + text + "" == text;
    LacksCharacter(text, name, c);
  }

  lemma StartsWithName(text: string, name: string)
    requires name <= text && Free('\n', name)
    ensures Contains(Flatten("" + text), name) && Contains(Flatten("" + text + ""), name)
  {
    assert "" + text == text && "" + text + "" == text;
    assert name <= Flatten(text)[0..];
  }

  // ---------- records of five fields without padding ----------

  function Five(names: Names, r: Record, raw: string, gap: string, day: string, date: string): (fields: seq<Field>)
    ensures |fields| == 5
  {
    [Flag("", r.selection, ""), Value("", names.srcadr, r.address, ""), Value("", names.rootdisp, r.rootDispersion, ""),
     Value("", names.refid, r.refId, ""), Stamp("", names.reftime, raw, gap, day, date)]
  }

  /** A character that no text contains, and that is no separator either. */
  predicate Lack(c: char, texts: seq<string>) {
    c != ' ' && c != '=' && forall i :: 0 <= i < |texts| ==> Free(c, texts[i])
  }

  /** The texts of the first `n` fields. */
  function Texts(names: Names, r: Record, n: nat): seq<string>
    requires n <= 4
  {
    if n == 1 then [r.selection]
    else if n == 2 then [r.selection, names.srcadr, r.address]
    else if n == 3 then [r.selection, names.srcadr, r.address, names.rootdisp, r.rootDispersion]
    else if n == 4 then [r.selection, names.srcadr, r.address, names.rootdisp, r.rootDispersion, names.refid, r.refId]
    else []
  }

  /** Field `j` does not mention a name with a character that the texts of the first fields lack. */
  lemma EarlierLacks(names: Names, r: Record, raw: string, gap: string, day: string, date: string,
                     n: nat, name: string, c: char, j: nat)
    requires j < n <= 4 && c in name && Lack(c, Texts(names, r, n))
    ensures !Mentions(Five(names, r, raw, gap, day, date)[j], name)
  {
    var texts := Texts(names, r, n);
    assert Free(c, texts[0]);
    if j == 0 {
      FlagLacks(r.selection, name, c);
    } else {
      assert Free(c, texts[2 * j - 1]) && Free(c, texts[2 * j]);
    }
  }

  /** The name of field `n`, given that some character of it does not occur before. */
  lemma FirstOfFive(names: Names, r: Record, raw: string, gap: string, day: string, date: string,
                    n: nat, name: string, c: char)
    requires n <= 4 && c in name && Lack(c, Texts(names, r, n))
    requires name <= if n == 0 then r.selection else [names.srcadr, names.rootdisp, names.refid, names.reftime][n - 1]
    requires Free('\n', name)
    ensures FirstAt(Five(names, r, raw, gap, day, date), n, name)
  {
    var fields := Five(names, r, raw, gap, day, date);
    forall j | 0 <= j < n ensures !Mentions(fields[j], name) {
      EarlierLacks(names, r, raw, gap, day, date, n, name, c, j);
    }
    if n == 0 {
      StartsWithName(r.selection, name);
    } else if n < 4 {
      StartsWithName(fields[n].name + ['='] + fields[n].value, name);
    } else {
      StartsWithName(names.reftime + ['='] + (raw + gap + day), name);
    }
  }

  // ---------- spaced words ----------

  lemma SpacedThen(w: string, ws: seq<string>, rest: string)
    requires rest == "" || IsSpace(rest[0])
    ensures Spaced([w] + ws) + rest == " " + (w + (Spaced(ws) + rest))
    ensures Spaced(ws) + rest == "" || IsSpace((Spaced(ws) + rest)[0])
  {
    assert ([w] + ws)[1..] == ws;
    if ws == [] {
      assert Spaced(ws) + rest == rest;
    }
  }

  lemma WordThen(w: string, ws: seq<string>, rest: string)
    requires IsToken(w) && (rest == "" || IsSpace(rest[0]))
    ensures Words(Spaced([w] + ws) + rest) == [w] + Words(Spaced(ws) + rest)
  {
    SpacedThen(w, ws, rest);
    WordsSkip(w + (Spaced(ws) + rest));
    WordsCons(w, Spaced(ws) + rest);
  }

  /** Words apart by one blank, but two before the last. */
  lemma PaddedWords(a: string, b: string, c: string, d: string)
    requires IsToken(a) && IsToken(b) && IsToken(c) && IsToken(d)
    ensures Words(Spaced([a] + ([b] + ([c] + []))) + ("  " + d)) == [a] + ([b] + ([c] + [d]))
  {
    var last := "  " + d;
    WordThen(a, [b] + ([c] + []), last);
    WordThen(b, [c] + [], last);
    WordThen(c, [], last);
    assert Spaced([]) + last == last;
    WordsAfterBlank("  ", d);
    WordsCons(d, "");
    assert d + "" == d;
  }

  // ---------- the example ----------

  /** Two blanks stand before the one-digit hour. */
  const DATE := Spaced(["Jan"] + (["13"] + (["2016"] + []))) + ("  " + "7:56:26.126")

  const DATE_WORDS := ["Jan"] + (["13"] + (["2016"] + ["7:56:26.126"]))

  lemma DateWords()
    ensures Words(DATE) == DATE_WORDS
  {
    PaddedWords("Jan", "13", "2016", "7:56:26.126");
  }

  /** The comma and the second blank of the printed date are gone. */
  const EXAMPLE :=
    Record("sel_sys.peer", "0.5", "10.0.0.1", "GPS", JoinWords(["Wed"] + DATE_WORDS))

  lemma DateLacks(c: char)
    requires c in ['m', ',', '=', '\n']
    ensures Free(c, DATE) && DATE != "" && IsSpace(DATE[0])
  {
    assert DATE == " " + "Jan" + (" " + "13" + (" " + "2016" + "")) + ("  " + "7:56:26.126") by {
      SpacedThree("Jan", "13", "2016");
    }
  }

  lemma SpacedCons(w: string, ws: seq<string>)
    ensures Spaced([w] + ws) == " " + w + Spaced(ws)
  {
    assert ([w] + ws)[1..] == ws;
  }

  lemma SpacedThree(a: string, b: string, c: string)
    ensures Spaced([a] + ([b] + ([c] + []))) == " " + a + (" " + b + (" " + c + ""))
  {
    SpacedCons(a, [b] + ([c] + []));
    SpacedCons(b, [c] + []);
    SpacedCons(c, []);
  }

  function Fields(): (fields: seq<Field>)
    ensures |fields| == 5
  {
    Five(NtpqParser.Ntpq().names, EXAMPLE, "da41f35a.206e4b2e", "  ", "Wed", DATE)
  }

  lemma TextsHaveNoComma()
    ensures var n := NtpqParser.Ntpq().names;
      && Free(',', n.srcadr) && Free(',', n.rootdisp) && Free(',', n.refid) && Free(',', n.reftime)
    ensures Free(',', EXAMPLE.selection) && Free(',', EXAMPLE.address)
    ensures Free(',', EXAMPLE.rootDispersion) && Free(',', EXAMPLE.refId)
  {
  }

  lemma FieldsAreSeparated()
    ensures forall k :: 0 <= k < 5 ==> Separated(Fields()[k])
  {
    TextsHaveNoComma();
    DateLacks(',');
  }

  predicate IsValue(s: string) {
    Free('=', s) && Free('\n', s) && s != "" && !IsSpace(s[|s| - 1])
  }

  lemma ValuesAreValues()
    ensures IsValue(EXAMPLE.address) && IsValue(EXAMPLE.rootDispersion) && IsValue(EXAMPLE.refId)
    ensures Trimmed(EXAMPLE.selection) && Free('\n', EXAMPLE.selection)
  {
  }

  lemma StampIsPlain()
    ensures Plain("da41f35a.206e4b2e") && Blank("  ") && Plain("Wed")
  {
  }

  lemma FieldsAreWellWritten()
    ensures forall k :: 0 <= k < 5 ==> WellWritten(Fields()[k])
  {
    ValuesAreValues();
    StampIsPlain();
    DateLacks('=');
  }

  lemma SelectionFirst()
    ensures FirstAt(Fields(), 0, NtpqParser.Ntpq().names.selection)
  {
    FirstOfFive(NtpqParser.Ntpq().names, EXAMPLE, "da41f35a.206e4b2e", "  ", "Wed", DATE, 0, NtpqParser.Ntpq().names.selection, '_');
  }

  lemma SrcadrFirst()
    ensures FirstAt(Fields(), 1, NtpqParser.Ntpq().names.srcadr)
  {
    FirstOfFive(NtpqParser.Ntpq().names, EXAMPLE, "da41f35a.206e4b2e", "  ", "Wed", DATE, 1, NtpqParser.Ntpq().names.srcadr, 'c');
  }

  lemma RootdispFirst()
    ensures FirstAt(Fields(), 2, NtpqParser.Ntpq().names.rootdisp)
  {
    FirstOfFive(NtpqParser.Ntpq().names, EXAMPLE, "da41f35a.206e4b2e", "  ", "Wed", DATE, 2, NtpqParser.Ntpq().names.rootdisp, 'o');
  }

  lemma RefidFirst()
    ensures FirstAt(Fields(), 3, NtpqParser.Ntpq().names.refid)
  {
    FirstOfFive(NtpqParser.Ntpq().names, EXAMPLE, "da41f35a.206e4b2e", "  ", "Wed", DATE, 3, NtpqParser.Ntpq().names.refid, 'f');
  }

  lemma ReftimeFirst()
    ensures FirstAt(Fields(), 4, NtpqParser.Ntpq().names.reftime)
  {
    FirstOfFive(NtpqParser.Ntpq().names, EXAMPLE, "da41f35a.206e4b2e", "  ", "Wed", DATE, 4, NtpqParser.Ntpq().names.reftime, 'm');
  }

  /** The five fields are well written and every name comes first where it should; unfolded on demand. */
  ghost predicate FiveReady(names: Names, r: Record, raw: string, gap: string, day: string, date: string) {
    forall k {:trigger Unfolded(TextLayer, k)} :: Unfolded(TextLayer, k) ==>
      var fields := Five(names, r, raw, gap, day, date);
      && (forall k :: 0 <= k < 5 ==> Separated(fields[k]) && WellWritten(fields[k]))
      && FirstAt(fields, 0, names.selection) && FirstAt(fields, 1, names.srcadr) && FirstAt(fields, 2, names.rootdisp)
      && FirstAt(fields, 3, names.refid) && FirstAt(fields, 4, names.reftime)
      && Free('=', r.address) && Free('=', r.rootDispersion) && Free('=', r.refId) && Free('=', date)
      && !Contains(Flatten(date), names.reftime) && r.referenceTime == JoinWords([day] + Words(date))
  }

  lemma FiveSay(names: Names, r: Record, raw: string, gap: string, day: string, date: string)
    requires FiveReady(names, r, raw, gap, day, date)
    ensures Says(names, Five(names, r, raw, gap, day, date), Places(0, 2, 1, 3, 4), r)
  {
    assert Unfolded(TextLayer, 0);
    var fields := Five(names, r, raw, gap, day, date);
    assert forall k :: 0 <= k < 5 ==> Separated(fields[k]);
    WholeValueHolds(fields, 1, names.srcadr, r.address);
    WholeValueHolds(fields, 2, names.rootdisp, r.rootDispersion);
    WholeValueHolds(fields, 3, names.refid, r.refId);
    assert WellWritten(fields[0]) && HoldsFlag(fields, 0, names.selection, r.selection);
    assert WellWritten(fields[4]) && HoldsTime(fields, 4, names.reftime, r.referenceTime);
  }

  lemma WholeValueHolds(fields: seq<Field>, k: nat, name: string, value: string)
    requires FirstAt(fields, k, name) && WellWritten(fields[k]) && fields[k].Value?
    requires fields[k].value == value && Free('=', value)
    ensures Holds(fields, k, name, value)
  {
  }

  /** The shown word of every code, and no others. */
  lemma SelectionWords()
    ensures var s := NtpqParser.Ntpq().selections;
      && s.Keys == {"sel_reject", "sel_falsetick", "sel_excess", "sel_outlier", "sel_candidate", "sel_backup", "sel_sys.peer", "sel_pps.peer"}
      && s["sel_reject"] == "reject" && s["sel_falsetick"] == "falsetick" && s["sel_excess"] == "excess"
      && s["sel_outlier"] == "outlier" && s["sel_candidate"] == "candidate" && s["sel_backup"] == "backup"
      && s["sel_sys.peer"] == "system_peer" && s["sel_pps.peer"] == "pps_peer"
  {
  }

  lemma KindWords()
    ensures var k := NtpqParser.Ntpq().kinds;
      && k.Keys == {"u", "b", "l", "s", "A", "B", "M"}
      && k["u"] == "uni_or_many_cast" && k["b"] == "bcast_or_mcast_client" && k["l"] == "local_ref_clock"
      && k["s"] == "symm_peer" && k["A"] == "manycast_server" && k["B"] == "bcast_server" && k["M"] == "mcast_server"
  {
  }

  lemma DateIsReady()
    ensures Free('=', DATE) && !Contains(Flatten(DATE), NtpqParser.Ntpq().names.reftime)
    ensures EXAMPLE.referenceTime == JoinWords(["Wed"] + Words(DATE))
  {
    DateWords();
    DateLacks('=');
    DateLacks('m');
    LacksCharacter(DATE, NtpqParser.Ntpq().names.reftime, 'm');
  }

  lemma ExampleIsReady()
    ensures FiveReady(NtpqParser.Ntpq().names, EXAMPLE, "da41f35a.206e4b2e", "  ", "Wed", DATE)
  {
    FieldsAreSeparated();
    FieldsAreWellWritten();
    SelectionFirst();
    SrcadrFirst();
    RootdispFirst();
    RefidFirst();
    ReftimeFirst();
    ValuesAreValues();
    DateIsReady();
  }

  /** The names the daemon searches for are read without ambiguity from this record. */
  lemma ExampleRecord()
    ensures Says(NtpqParser.Ntpq().names, Fields(), Places(0, 2, 1, 3, 4), EXAMPLE)
    ensures ReadRecord(NtpqParser.Ntpq().names, Written(Fields())) == Some(EXAMPLE)
  {
    ExampleIsReady();
    FiveSay(NtpqParser.Ntpq().names, EXAMPLE, "da41f35a.206e4b2e", "  ", "Wed", DATE);
    RecordRoundTrip(NtpqParser.Ntpq().names, Fields(), Places(0, 2, 1, 3, 4), EXAMPLE);
  }
}
