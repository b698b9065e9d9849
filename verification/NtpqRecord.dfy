/**
 The `rv` record of one association: a comma-separated list of flags, assignments and
 time stamps.  A time stamp is written with a comma of its own, so it comes back from
 the split in two pieces.
 */
module NtpqRecord {
  import opened Wrappers
  import opened Text
  import opened NtpqText

  /** The names the parser looks for; it accepts a piece that contains the name anywhere. */
  datatype Names = Names(selection: string, rootdisp: string, srcadr: string, refid: string, reftime: string)

  /** What the parser takes from a record. */
  datatype Record = Record(
    selection: string, rootDispersion: string, address: string, refId: string, referenceTime: string)

  // ---------- reading ----------

  function Assigned(pieces: seq<string>, name: string): Option<string> {
    match FirstWith(pieces, name)
    case None => None
    case Some(k) => AfterEquals(Strip(pieces[k]))
  }

  /** The words after the raw time stamp, of a piece and the one that follows it. */
  function TimeOf(text: string): Option<string> {
    match AfterEquals(Strip(text))
    case None => None
    case Some(v) => Some(JoinWords(if Words(v) == [] then [] else Words(v)[1..]))
  }

  /** The list of all candidates is built before the first is used, so a name in the last piece raises. */
  function Time(pieces: seq<string>, name: string): Option<string> {
    if pieces != [] && Contains(pieces[|pieces| - 1], name) then None
    else match FirstWith(pieces, name)
      case None => None
      case Some(k) => TimeOf(pieces[k] + pieces[k + 1])
  }

  function RecordOf(names: Names, pieces: seq<string>): Option<Record> {
    var selection := FirstWith(pieces, names.selection);
    var rootDispersion := Assigned(pieces, names.rootdisp);
    var address := Assigned(pieces, names.srcadr);
    var referenceTime := Time(pieces, names.reftime);
    var refId := Assigned(pieces, names.refid);
    if selection.None? || rootDispersion.None? || address.None? || referenceTime.None? || refId.None? then None
    else Some(Record(Strip(pieces[selection.value]), rootDispersion.value, address.value, refId.value,
                     referenceTime.value))
  }

  function ReadRecord(names: Names, text: string): Option<Record> {
    RecordOf(names, SplitOn(',', JoinWith(' ', SplitOn('\n', text))))
  }

  // ---------- which texts read ----------

  /** `k` is the first piece that contains the name. */
  predicate FirstPiece(pieces: seq<string>, name: string, k: nat) {
    && k < |pieces| && Contains(pieces[k], name)
    && forall j :: 0 <= j < k ==> !Contains(pieces[j], name)
  }

  /** The first piece with the name has an equals sign. */
  predicate HasAssignment(pieces: seq<string>, name: string) {
    exists k: nat :: k < |pieces| && FirstPiece(pieces, name, k) && '=' in pieces[k]
  }

  /** The first piece with the name, and the one after it, have one; the last piece does not contain the name. */
  predicate HasTime(pieces: seq<string>, name: string) {
    && (pieces != [] ==> !Contains(pieces[|pieces| - 1], name))
    && exists k: nat :: k + 1 < |pieces| && FirstPiece(pieces, name, k) && ('=' in pieces[k] || '=' in pieces[k + 1])
  }

  /** What the comma-separated pieces of a record need for the parser to read it. */
  predicate Legible(names: Names, pieces: seq<string>) {
    && (exists k: nat :: k < |pieces| && FirstPiece(pieces, names.selection, k))
    && HasAssignment(pieces, names.rootdisp) && HasAssignment(pieces, names.srcadr)
    && HasAssignment(pieces, names.refid) && HasTime(pieces, names.reftime)
  }

  lemma FirstPieceIsFound(pieces: seq<string>, name: string)
    ensures FirstWith(pieces, name).Some? ==> FirstPiece(pieces, name, FirstWith(pieces, name).value)
    ensures forall k: nat :: FirstPiece(pieces, name, k) ==> FirstWith(pieces, name) == Some(k)
  {
  }

  lemma AssignmentReads(pieces: seq<string>, name: string)
    ensures Assigned(pieces, name).Some? <==> HasAssignment(pieces, name)
  {
    FirstPieceIsFound(pieces, name);
    var first := FirstWith(pieces, name);
    if first.Some? {
      AfterEqualsReads(Strip(pieces[first.value]));
      StripKeeps(pieces[first.value], '=');
    }
  }

  lemma TimeReads(pieces: seq<string>, name: string)
    ensures Time(pieces, name).Some? <==> HasTime(pieces, name)
  {
    FirstPieceIsFound(pieces, name);
    var first := FirstWith(pieces, name);
    if first.Some? && !Contains(pieces[|pieces| - 1], name) {
      var text := pieces[first.value] + pieces[first.value + 1];
      AfterEqualsReads(Strip(text));
      StripKeeps(text, '=');
    }
  }

  /** A record of any text reads if and only if its pieces are legible. */
  lemma RecordReadsExactly(names: Names, text: string)
    ensures ReadRecord(names, text).Some? <==> Legible(names, SplitOn(',', Flatten(text)))
  {
    JoinOfLines(text);
    var pieces := SplitOn(',', Flatten(text));
    FirstPieceIsFound(pieces, names.selection);
    AssignmentReads(pieces, names.rootdisp);
    AssignmentReads(pieces, names.srcadr);
    AssignmentReads(pieces, names.refid);
    TimeReads(pieces, names.reftime);
  }

  // ---------- writing ----------

  /** One field; `before` and `after` are the blanks and line breaks around it. */
  datatype Field =
    | Flag(before: string, text: string, after: string)
    | Value(before: string, name: string, value: string, after: string)
    | Stamp(before: string, name: string, raw: string, gap: string, day: string, date: string)

  /** A time stamp has a comma of its own, after the day of the week. */
  function Pieces(f: Field): (ps: seq<string>)
    ensures ps != []
  {
    match f
    case Flag(b, text, a) => [b + text + a]
    case Value(b, name, value, a) => [b + (name + ['='] + value) + a]
    case Stamp(b, name, raw, gap, day, date) => [b + (name + ['='] + (raw + gap + day)), date]
  }

  function AllPieces(fields: seq<Field>): seq<string> {
    if fields == [] then [] else Pieces(fields[0]) + AllPieces(fields[1..])
  }

  function Written(fields: seq<Field>): string {
    JoinWith(',', AllPieces(fields))
  }

  predicate IsName(s: string) {
    s != "" && !IsSpace(s[0]) && Free('=', s) && Free('\n', s)
  }

  predicate Plain(s: string) {
    IsToken(s) && Free('=', s)
  }

  /** A comma only ever separates. */
  predicate Separated(f: Field) {
    forall k :: 0 <= k < |Pieces(f)| ==> Free(',', Pieces(f)[k])
  }

  /**
   A field the parser can be asked for: padding is white space, and the name of an assignment has
   no equals sign.  The date of a time stamp is any text that begins with white space, its words
   apart by any amount of it.
   */
  predicate WellWritten(f: Field) {
    Blank(f.before) &&
    match f
    case Flag(_, text, after) => Trimmed(text) && Free('\n', text) && Blank(after)
    case Value(_, name, value, after) =>
      && IsName(name) && Free('\n', value)
      && (value == "" || !IsSpace(value[|value| - 1])) && Blank(after)
    case Stamp(_, name, raw, gap, day, date) =>
      && IsName(name) && Plain(raw) && Blank(gap) && gap != "" && Plain(day)
      && (date == "" || IsSpace(date[0]))
  }

  /** A piece of the field, once line breaks are blanks, contains the name. */
  ghost predicate Mentions(f: Field, name: string) {
    exists k :: 0 <= k < |Pieces(f)| && Contains(Flatten(Pieces(f)[k]), name)
  }

  /** The field at `k` is the first that mentions the name, and it does so in its first piece. */
  ghost predicate FirstAt(fields: seq<Field>, k: nat, name: string) {
    && k < |fields|
    && (forall j :: 0 <= j < k ==> !Mentions(fields[j], name))
    && Contains(Flatten(Pieces(fields[k])[0]), name)
  }

  /** Where the five fields the parser wants are. */
  datatype Places = Places(selection: nat, rootdisp: nat, srcadr: nat, refid: nat, reftime: nat)

  /** A value is read up to its own first equals sign, which is all of it if it has none. */
  ghost predicate Holds(fields: seq<Field>, k: nat, name: string, value: string) {
    FirstAt(fields, k, name) && WellWritten(fields[k]) && fields[k].Value? && UpTo('=', fields[k].value) == value
  }

  ghost predicate HoldsFlag(fields: seq<Field>, k: nat, name: string, text: string) {
    FirstAt(fields, k, name) && WellWritten(fields[k]) && fields[k].Flag? && fields[k].text == text
  }

  /**
   The words of the date up to an equals sign, the raw stamp left out, apart by one blank each; the last
   piece must not mention the name.
   */
  ghost predicate HoldsTime(fields: seq<Field>, k: nat, name: string, time: string) {
    && FirstAt(fields, k, name) && WellWritten(fields[k]) && fields[k].Stamp?
    && JoinWords([fields[k].day] + Words(UpTo('=', fields[k].date))) == time
    && var last := Pieces(fields[|fields| - 1]); !Contains(Flatten(last[|last| - 1]), name)
  }

  /** The fields say `r`, at the places `at`, and no earlier field could be taken for one of the five. */
  ghost predicate Says(names: Names, fields: seq<Field>, at: Places, r: Record) {
    && (forall k :: 0 <= k < |fields| ==> Separated(fields[k]))
    && HoldsFlag(fields, at.selection, names.selection, r.selection)
    && Holds(fields, at.rootdisp, names.rootdisp, r.rootDispersion)
    && Holds(fields, at.srcadr, names.srcadr, r.address)
    && Holds(fields, at.refid, names.refid, r.refId)
    && HoldsTime(fields, at.reftime, names.reftime, r.referenceTime)
  }

  // ---------- the pieces of a written record ----------

  lemma {:induction false} PiecesFree(fields: seq<Field>)
    requires forall k :: 0 <= k < |fields| ==> Separated(fields[k])
    ensures forall i :: 0 <= i < |AllPieces(fields)| ==> Free(',', AllPieces(fields)[i])
    ensures fields != [] ==> AllPieces(fields) != []
  {
    if fields != [] {
      assert Separated(fields[0]);
      PiecesFree(fields[1..]);
    }
  }

  /** Reading starts from exactly the pieces that were written, with blanks for line breaks. */
  lemma PiecesComeBack(fields: seq<Field>)
    requires fields != [] && forall k :: 0 <= k < |fields| ==> Separated(fields[k])
    ensures SplitOn(',', JoinWith(' ', SplitOn('\n', Written(fields)))) == FlattenAll(AllPieces(fields))
  {
    PiecesFree(fields);
    JoinOfLines(Written(fields));
    FlattenJoin(AllPieces(fields));
    forall i | 0 <= i < |AllPieces(fields)| ensures Free(',', FlattenAll(AllPieces(fields))[i]) {
      assert Free(',', AllPieces(fields)[i]);
    }
    SplitOfJoin(',', FlattenAll(AllPieces(fields)));
  }

  lemma FlattenAllCons(f: Field, rest: seq<string>)
    ensures FlattenAll(Pieces(f) + rest) == FlattenAll(Pieces(f)) + FlattenAll(rest)
  {
  }

  lemma {:induction false} NotMentioned(fields: seq<Field>, name: string)
    requires forall j :: 0 <= j < |fields| ==> !Mentions(fields[j], name)
    ensures forall i :: 0 <= i < |AllPieces(fields)| ==> !Contains(FlattenAll(AllPieces(fields))[i], name)
  {
    if fields != [] {
      var rest := AllPieces(fields[1..]);
      NotMentioned(fields[1..], name);
      FlattenAllCons(fields[0], rest);
      assert !Mentions(fields[0], name);
      var all := FlattenAll(AllPieces(fields));
      forall i | 0 <= i < |all| ensures !Contains(all[i], name) {
        if i < |Pieces(fields[0])| {
          assert all[i] == Flatten(Pieces(fields[0])[i]);
        } else {
          assert all[i] == FlattenAll(rest)[i - |Pieces(fields[0])|];
        }
      }
    }
  }

  lemma {:induction false} AllPiecesAppend(a: seq<Field>, b: seq<Field>)
    ensures AllPieces(a + b) == AllPieces(a) + AllPieces(b)
  {
    if a == [] {
      assert a + b == b;
    } else {
      assert (a + b)[1..] == a[1..] + b;
      AllPiecesAppend(a[1..], b);
    }
  }

  /** The pieces of the field at `k`, between those of the fields before it and after it. */
  lemma PiecesAround(fields: seq<Field>, k: nat) returns (before: seq<string>, after: seq<string>)
    requires k < |fields|
    ensures before == AllPieces(fields[..k]) && after == AllPieces(fields[k + 1..])
    ensures FlattenAll(AllPieces(fields)) == FlattenAll(before) + FlattenAll(Pieces(fields[k])) + FlattenAll(after)
  {
    before, after := AllPieces(fields[..k]), AllPieces(fields[k + 1..]);
    assert fields == fields[..k] + fields[k..];
    AllPiecesAppend(fields[..k], fields[k..]);
    assert fields[k..][1..] == fields[k + 1..];
  }

  /** The search stops at the first piece of the first field that mentions the name. */
  lemma FoundAt(fields: seq<Field>, k: nat, name: string) returns (i: nat)
    requires FirstAt(fields, k, name)
    ensures var ps := FlattenAll(AllPieces(fields));
      && i + |Pieces(fields[k])| <= |ps|
      && FirstWith(ps, name) == Some(i)
      && forall j :: 0 <= j < |Pieces(fields[k])| ==> ps[i + j] == Flatten(Pieces(fields[k])[j])
  {
    var before, after := PiecesAround(fields, k);
    NotMentioned(fields[..k], name);
    i := |before|;
    FoundBetween(FlattenAll(before), FlattenAll(Pieces(fields[k])), FlattenAll(after), name);
  }

  lemma FoundBetween(before: seq<string>, here: seq<string>, after: seq<string>, name: string)
    requires forall j :: 0 <= j < |before| ==> !Contains(before[j], name)
    requires here != [] && Contains(here[0], name)
    ensures var ps := before + here + after;
      && FirstWith(ps, name) == Some(|before|)
      && forall j :: 0 <= j < |here| ==> ps[|before| + j] == here[j]
  {
    var ps := before + here + after;
    forall j | 0 <= j < |before| ensures !Contains(ps[j], name) {
      assert ps[j] == before[j];
    }
    assert ps[|before|] == here[0];
  }

  /** The last piece read is the last piece of the last field. */
  lemma LastPiece(fields: seq<Field>)
    requires fields != []
    ensures var ps, last := FlattenAll(AllPieces(fields)), Pieces(fields[|fields| - 1]);
      ps != [] && ps[|ps| - 1] == Flatten(last[|last| - 1])
  {
    var before, after := PiecesAround(fields, |fields| - 1);
    assert after == [];
  }

  // ---------- one field each ----------

  lemma FlattenPadded(b: string, core: string, a: string)
    requires Free('\n', core)
    ensures Flatten(b + core + a) == Flatten(b) + core + Flatten(a)
  {
    FlattenPlain(core);
    FlattenAppend(b + core, a);
    FlattenAppend(b, core);
  }

  lemma FlagComesBack(f: Field)
    requires WellWritten(f) && f.Flag?
    ensures Strip(Flatten(Pieces(f)[0])) == f.text
  {
    FlattenPadded(f.before, f.text, f.after);
    StripPadded(Flatten(f.before), f.text, Flatten(f.after));
  }

  lemma ValueComesBack(f: Field)
    requires WellWritten(f) && f.Value?
    ensures AfterEquals(Strip(Flatten(Pieces(f)[0]))) == Some(UpTo('=', f.value))
    ensures AfterEquals(Strip(Flatten(Pieces(f)[0]))) == Some(f.value) <==> Free('=', f.value)
  {
    var core := f.name + ['='] + f.value;
    FlattenPadded(f.before, core, f.after);
    StripPadded(Flatten(f.before), core, Flatten(f.after));
    AfterEqualsOf(f.name, f.value);
  }

  lemma Regroup(a: string, b: string, c: string, d: string)
    ensures a + b + c + d == a + (b + (c + d))
  {
  }

  lemma StampWords(raw: string, gap: string, day: string, date: string)
    requires IsToken(raw) && Blank(gap) && gap != "" && IsToken(day) && (date == "" || IsSpace(date[0]))
    ensures Words(raw + gap + day + date) == [raw] + ([day] + Words(date))
  {
    Regroup(raw, gap, day, date);
    WordsCons(raw, gap + (day + date));
    WordsAfterBlank(gap, day + date);
    WordsCons(day, date);
  }

  /** The two pieces of a time stamp, put back together without the comma. */
  lemma StampJoined(before: string, name: string, first: string, date: string)
    requires Free('\n', name)
    ensures Flatten(before + (name + ['='] + first)) + Flatten(date)
         == Flatten(before) + ((name + ['=']) + Flatten(first + date))
  {
    FlattenAppend(before, name + ['='] + first);
    FlattenAppend(name + ['='], first);
    FlattenPlain(name + ['=']);
    FlattenAppend(first, date);
  }

  /** Stripping keeps everything up to the equals sign. */
  lemma AssignmentStripped(left: string, name: string, value: string)
    requires Blank(left) && IsName(name)
    ensures AfterEquals(Strip(left + ((name + ['=']) + value))) == Some(UpTo('=', StripRight(value)))
  {
    StripLeftPadded(left, (name + ['=']) + value);
    StripRightAppend(name + ['='], value);
    AfterEqualsOf(name, StripRight(value));
  }

  /** The words of a time stamp survive line breaks and stripping. */
  lemma StampWordsRead(raw: string, gap: string, day: string, date: string)
    requires Plain(raw) && Blank(gap) && gap != "" && Plain(day) && (date == "" || IsSpace(date[0]))
    ensures Words(UpTo('=', StripRight(Flatten(raw + gap + day + date)))) == [raw] + ([day] + Words(UpTo('=', date)))
  {
    var value := raw + gap + day + date;
    WordsBefore('=', Flatten(value));
    UpToFlat('=', value);
    WordsOfFlat(UpTo('=', value));
    UpToAppend('=', raw + gap + day, date);
    StampWords(raw, gap, day, UpTo('=', date));
  }

  /** The reference time is the day and the words of the date, however they are spaced. */
  lemma StampComesBack(f: Field)
    requires WellWritten(f) && f.Stamp?
    ensures TimeOf(Flatten(Pieces(f)[0]) + Flatten(Pieces(f)[1])) == Some(JoinWords([f.day] + Words(UpTo('=', f.date))))
  {
    var value := f.raw + f.gap + f.day + f.date;
    StampJoined(f.before, f.name, f.raw + f.gap + f.day, f.date);
    AssignmentStripped(Flatten(f.before), f.name, Flatten(value));
    StampWordsRead(f.raw, f.gap, f.day, f.date);
  }

  lemma {:induction false} WordsFree(sep: char, s: string)
    requires Free(sep, s)
    ensures forall i :: 0 <= i < |Words(s)| ==> Free(sep, Words(s)[i])
    decreases |s|
  {
    if s != "" && IsSpace(s[0]) {
      WordsFree(sep, s[1..]);
    } else if s != "" {
      WordsFree(sep, s[TokenEnd(s)..]);
    }
  }

  lemma {:induction false} JoinedWordsFree(sep: char, ws: seq<string>)
    requires sep != ' ' && forall i :: 0 <= i < |ws| ==> Free(sep, ws[i])
    ensures Free(sep, Spaced(ws)) && Free(sep, JoinWords(ws))
  {
    if ws != [] {
      JoinedWordsFree(sep, ws[1..]);
      assert Free(sep, ws[0]);
    }
  }

  /** A printed date never comes back as it was printed: the comma after the day is gone. */
  lemma CommaIsLost(f: Field)
    requires WellWritten(f) && f.Stamp? && Separated(f)
    ensures Free(',', JoinWords([f.day] + Words(UpTo('=', f.date))))
    ensures TimeOf(Flatten(Pieces(f)[0]) + Flatten(Pieces(f)[1])) != Some(f.day + [','] + f.date)
  {
    StampComesBack(f);
    var first := f.before + (f.name + ['='] + (f.raw + f.gap + f.day));
    assert Free(',', Pieces(f)[0]) && Free(',', Pieces(f)[1]);
    forall i | 0 <= i < |f.day| ensures f.day[i] != ',' {
      assert first[|first| - |f.day| + i] == f.day[i];
    }
    WordsFree(',', UpTo('=', f.date));
    JoinedWordsFree(',', [f.day] + Words(UpTo('=', f.date)));
    assert (f.day + [','] + f.date)[|f.day|] == ',';
  }

  lemma HeldValue(fields: seq<Field>, k: nat, name: string, value: string)
    requires Holds(fields, k, name, value)
    ensures Assigned(FlattenAll(AllPieces(fields)), name) == Some(value)
  {
    var i := FoundAt(fields, k, name);
    ValueComesBack(fields[k]);
    assert FlattenAll(AllPieces(fields))[i + 0] == Flatten(Pieces(fields[k])[0]);
  }

  lemma HeldTime(fields: seq<Field>, k: nat, name: string, time: string)
    requires HoldsTime(fields, k, name, time)
    ensures Time(FlattenAll(AllPieces(fields)), name) == Some(time)
  {
    var ps := FlattenAll(AllPieces(fields));
    var i := FoundAt(fields, k, name);
    LastPiece(fields);
    assert ps[i + 0] == Flatten(Pieces(fields[k])[0]);
    assert ps[i + 1] == Flatten(Pieces(fields[k])[1]);
    TimeAt(ps, name, i);
    StampComesBack(fields[k]);
  }

  lemma TimeAt(ps: seq<string>, name: string, i: nat)
    requires i + 1 < |ps| && FirstWith(ps, name) == Some(i) && !Contains(ps[|ps| - 1], name)
    ensures Time(ps, name) == TimeOf(ps[i] + ps[i + 1])
  {
  }

  lemma HeldFlag(fields: seq<Field>, k: nat, name: string, text: string) returns (i: nat)
    requires HoldsFlag(fields, k, name, text)
    ensures var ps := FlattenAll(AllPieces(fields));
      i < |ps| && FirstWith(ps, name) == Some(i) && Strip(ps[i]) == text
  {
    i := FoundAt(fields, k, name);
    FlagComesBack(fields[k]);
    assert FlattenAll(AllPieces(fields))[i + 0] == Flatten(Pieces(fields[k])[0]);
  }

  lemma RecordOfPieces(names: Names, ps: seq<string>, i: nat, r: Record)
    requires i < |ps| && FirstWith(ps, names.selection) == Some(i) && Strip(ps[i]) == r.selection
    requires Assigned(ps, names.rootdisp) == Some(r.rootDispersion)
    requires Assigned(ps, names.srcadr) == Some(r.address)
    requires Assigned(ps, names.refid) == Some(r.refId)
    requires Time(ps, names.reftime) == Some(r.referenceTime)
    ensures RecordOf(names, ps) == Some(r)
  {
  }

  /** The parser recovers a record from its text, whatever other fields, padding and spacing it has. */
  lemma RecordRoundTrip(names: Names, fields: seq<Field>, at: Places, r: Record)
    requires Says(names, fields, at, r)
    ensures ReadRecord(names, Written(fields)) == Some(r)
  {
    PiecesComeBack(fields);
    var i := HeldFlag(fields, at.selection, names.selection, r.selection);
    HeldValue(fields, at.rootdisp, names.rootdisp, r.rootDispersion);
    HeldValue(fields, at.srcadr, names.srcadr, r.address);
    HeldValue(fields, at.refid, names.refid, r.refId);
    HeldTime(fields, at.reftime, names.reftime, r.referenceTime);
    RecordOfPieces(names, FlattenAll(AllPieces(fields)), i, r);
  }
}
