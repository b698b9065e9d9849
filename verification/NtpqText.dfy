/**
 The string operations behind the `ntpq` parser: stripping, flattening of line breaks,
 search for a name inside a piece of text, and the text after an equals sign.
 */
module NtpqText {
  import opened Wrappers
  import opened Text

  predicate Blank(s: string) {
    forall i :: 0 <= i < |s| ==> IsSpace(s[i])
  }

  /** Non-empty, with no white space at either end. */
  predicate Trimmed(s: string) {
    s != "" && !IsSpace(s[0]) && !IsSpace(s[|s| - 1])
  }

  // ---------- strip ----------

  function StripLeft(s: string): string {
    if s != "" && IsSpace(s[0]) then StripLeft(s[1..]) else s
  }

  function StripRight(s: string): string {
    if s != "" && IsSpace(s[|s| - 1]) then StripRight(s[..|s| - 1]) else s
  }

  /** `str.strip()` */
  function Strip(s: string): string {
    StripRight(StripLeft(s))
  }

  lemma {:induction false} StripLeftPadded(left: string, s: string)
    requires Blank(left) && (s == "" || !IsSpace(s[0]))
    ensures StripLeft(left + s) == s
  {
    if left == "" {
      assert left + s == s;
    } else {
      assert (left + s)[1..] == left[1..] + s;
      StripLeftPadded(left[1..], s);
    }
  }

  lemma {:induction false} StripRightPadded(s: string, right: string)
    requires Blank(right) && (s == "" || !IsSpace(s[|s| - 1]))
    ensures StripRight(s + right) == s
  {
    if right == "" {
      assert s + right == s;
    } else {
      var n := |right| - 1;
      assert (s + right)[..|s| + n] == s + right[..n];
      StripRightPadded(s, right[..n]);
    }
  }

  lemma StripPadded(left: string, s: string, right: string)
    requires Blank(left) && Trimmed(s) && Blank(right)
    ensures Strip(left + s + right) == s
  {
    assert left + s + right == left + (s + right);
    StripLeftPadded(left, s + right);
    StripRightPadded(s, right);
  }

  /** Nothing up to a character that is not white space is stripped from the right. */
  lemma {:induction false} StripRightAppend(a: string, b: string)
    requires a != "" && !IsSpace(a[|a| - 1])
    ensures StripRight(a + b) == a + StripRight(b)
  {
    if b == "" {
      assert a + b == a;
    } else if IsSpace(b[|b| - 1]) {
      assert (a + b)[..|a + b| - 1] == a + b[..|b| - 1];
      StripRightAppend(a, b[..|b| - 1]);
    }
  }

  lemma {:induction false} StripRightFree(sep: char, s: string)
    requires Free(sep, s)
    ensures Free(sep, StripRight(s))
  {
    if s != "" && IsSpace(s[|s| - 1]) {
      StripRightFree(sep, s[..|s| - 1]);
    }
  }

  // ---------- words under padding ----------

  lemma {:induction false} WordsThenBlank(s: string, c: char)
    requires IsSpace(c)
    ensures Words(s + [c]) == Words(s)
    decreases |s|
  {
    if s == "" {
      assert (s + [c])[1..] == "";
    } else if IsSpace(s[0]) {
      assert (s + [c])[1..] == s[1..] + [c];
      WordsThenBlank(s[1..], c);
    } else {
      var n := TokenEnd(s);
      assert (s + [c])[..n] == s[..n] && (s + [c])[n..] == s[n..] + [c];
      WordsThenBlank(s[n..], c);
    }
  }

  /** Stripping takes no words away. */
  lemma {:induction false} WordsOfStripped(s: string)
    ensures Words(StripRight(s)) == Words(s)
  {
    if s != "" && IsSpace(s[|s| - 1]) {
      WordsOfStripped(s[..|s| - 1]);
      WordsThenBlank(s[..|s| - 1], s[|s| - 1]);
      assert s[..|s| - 1] + [s[|s| - 1]] == s;
    }
  }

  lemma {:induction false} WordsAfterBlank(left: string, s: string)
    requires Blank(left)
    ensures Words(left + s) == Words(s)
  {
    if left == "" {
      assert left + s == s;
    } else {
      assert (left + s)[1..] == left[1..] + s;
      WordsAfterBlank(left[1..], s);
    }
  }

  // ---------- line breaks become blanks ----------

  function Flatten(s: string): (r: string)
    ensures |r| == |s|
    ensures forall i :: 0 <= i < |s| ==> r[i] == if s[i] == '\n' then ' ' else s[i]
  {
    seq(|s|, i requires 0 <= i < |s| => if s[i] == '\n' then ' ' else s[i])
  }

  /** Splitting at line breaks and joining with blanks is that replacement. */
  lemma {:induction false} JoinOfLines(s: string)
    ensures JoinWith(' ', SplitOn('\n', s)) == Flatten(s)
  {
    if s != "" {
      JoinOfLines(s[1..]);
      var rest := SplitOn('\n', s[1..]);
      assert Flatten(s) == [Flatten(s)[0]] + Flatten(s[1..]);
      if s[0] == '\n' {
        assert ([""] + rest)[1..] == rest;
      } else {
        var parts := [[s[0]] + rest[0]] + rest[1..];
        assert parts[1..] == rest[1..];
        assert |rest| == 1 ==> parts == [[s[0]] + rest[0]];
      }
    }
  }

  lemma FlattenPlain(s: string)
    requires Free('\n', s)
    ensures Flatten(s) == s
  {
  }

  lemma FlattenFree(sep: char, s: string)
    requires Free(sep, s) && sep != ' '
    ensures Free(sep, Flatten(s))
  {
  }

  /** Line breaks and blanks separate the same words. */
  lemma {:induction false} WordsOfFlat(s: string)
    ensures Words(Flatten(s)) == Words(s)
    decreases |s|
  {
    if s != "" && IsSpace(s[0]) {
      assert Flatten(s)[1..] == Flatten(s[1..]);
      WordsOfFlat(s[1..]);
    } else if s != "" {
      var n := TokenEnd(s);
      assert Flatten(s)[..n] == s[..n] && Flatten(s)[n..] == Flatten(s[n..]);
      WordsOfFlat(s[n..]);
    }
  }

  lemma FlattenAppend(a: string, b: string)
    ensures Flatten(a + b) == Flatten(a) + Flatten(b)
  {
  }

  function FlattenAll(ps: seq<string>): (r: seq<string>)
    ensures |r| == |ps|
    ensures forall i :: 0 <= i < |ps| ==> r[i] == Flatten(ps[i])
  {
    seq(|ps|, i requires 0 <= i < |ps| => Flatten(ps[i]))
  }

  lemma {:induction false} FlattenJoin(ps: seq<string>)
    ensures Flatten(JoinWith(',', ps)) == JoinWith(',', FlattenAll(ps))
  {
    if |ps| > 1 {
      FlattenJoin(ps[1..]);
      assert FlattenAll(ps)[1..] == FlattenAll(ps[1..]);
      FlattenAppend(ps[0] + [','], JoinWith(',', ps[1..]));
      FlattenAppend(ps[0], [',']);
      assert Flatten([',']) == [','];
    }
  }

  // ---------- search ----------

  /** `needle in s` */
  predicate Contains(s: string, needle: string) {
    exists i :: 0 <= i <= |s| && needle <= s[i..]
  }

  /** The first piece that contains the name. */
  function FirstWith(pieces: seq<string>, needle: string): (r: Option<nat>)
    ensures r.Some? ==>
      && r.value < |pieces| && Contains(pieces[r.value], needle)
      && forall j :: 0 <= j < r.value ==> !Contains(pieces[j], needle)
    ensures r.None? ==> forall j :: 0 <= j < |pieces| ==> !Contains(pieces[j], needle)
  {
    if pieces == [] then None
    else if Contains(pieces[0], needle) then Some(0)
    else match FirstWith(pieces[1..], needle)
      case None => None
      case Some(k) => Some(k + 1)
  }

  // ---------- assignments ----------

  /** `s.split("=")[1]`, which raises when there is no equals sign. */
  function AfterEquals(s: string): Option<string> {
    var parts := SplitOn('=', s);
    if |parts| >= 2 then Some(parts[1]) else None
  }

  /** The text before the first separator, or all of it. */
  function UpTo(sep: char, s: string): (r: string)
    ensures Free(sep, r) && r <= s
    ensures r == s <==> Free(sep, s)
  {
    if s == "" || s[0] == sep then "" else [s[0]] + UpTo(sep, s[1..])
  }

  lemma {:induction false} UpToAppend(sep: char, a: string, b: string)
    requires Free(sep, a)
    ensures UpTo(sep, a + b) == a + UpTo(sep, b)
  {
    if a == "" {
      assert a + b == b;
    } else {
      assert (a + b)[1..] == a[1..] + b;
      UpToAppend(sep, a[1..], b);
    }
  }

  /** A text with the separator goes on with it after the part before it. */
  lemma {:induction false} UpToSplits(sep: char, s: string) returns (rest: string)
    requires sep in s
    ensures s == UpTo(sep, s) + ([sep] + rest)
  {
    if s[0] == sep {
      rest := s[1..];
    } else {
      rest := UpToSplits(sep, s[1..]);
      assert s == [s[0]] + s[1..];
    }
  }

  lemma {:induction false} UpToFlat(sep: char, s: string)
    requires sep != ' ' && sep != '\n'
    ensures UpTo(sep, Flatten(s)) == Flatten(UpTo(sep, s))
  {
    if s != "" && s[0] != sep {
      assert Flatten(s)[1..] == Flatten(s[1..]);
      UpToFlat(sep, s[1..]);
    }
  }

  lemma {:induction false} StrippedAfter(sep: char, a: string, b: string)
    requires !IsSpace(sep) && Free(sep, a)
    ensures UpTo(sep, StripRight(a + ([sep] + b))) == a
  {
    assert a + ([sep] + b) == (a + [sep]) + b;
    StripRightAppend(a + [sep], b);
    assert (a + [sep]) + StripRight(b) == a + ([sep] + StripRight(b));
    UpToAppend(sep, a, [sep] + StripRight(b));
    assert UpTo(sep, [sep] + StripRight(b)) == "";
  }

  /** Stripping the end does not change the words before the separator. */
  lemma {:induction false} WordsBefore(sep: char, s: string)
    requires !IsSpace(sep)
    ensures Words(UpTo(sep, StripRight(s))) == Words(UpTo(sep, s))
  {
    if sep in s {
      var b := UpToSplits(sep, s);
      StrippedAfter(sep, UpTo(sep, s), b);
    } else {
      StripRightFree(sep, s);
      WordsOfStripped(s);
    }
  }

  lemma {:induction false} SplitStart(sep: char, s: string)
    ensures SplitOn(sep, s)[0] == UpTo(sep, s)
    ensures |SplitOn(sep, s)| >= 2 <==> sep in s
  {
    if s != "" && s[0] != sep {
      SplitStart(sep, s[1..]);
    }
  }

  /** An assignment can be read exactly when there is an equals sign. */
  lemma AfterEqualsReads(s: string)
    ensures AfterEquals(s).Some? <==> '=' in s
  {
    SplitStart('=', s);
  }

  /** Stripping takes no equals sign away. */
  lemma {:induction false} StripLeftKeeps(s: string, c: char)
    requires !IsSpace(c)
    ensures c in StripLeft(s) <==> c in s
  {
    if s != "" && IsSpace(s[0]) {
      StripLeftKeeps(s[1..], c);
      assert s == [s[0]] + s[1..];
    }
  }

  lemma {:induction false} StripRightKeeps(s: string, c: char)
    requires !IsSpace(c)
    ensures c in StripRight(s) <==> c in s
  {
    if s != "" && IsSpace(s[|s| - 1]) {
      StripRightKeeps(s[..|s| - 1], c);
      assert s == s[..|s| - 1] + [s[|s| - 1]];
    }
  }

  lemma StripKeeps(s: string, c: char)
    requires !IsSpace(c)
    ensures c in Strip(s) <==> c in s
  {
    StripLeftKeeps(s, c);
    StripRightKeeps(StripLeft(s), c);
  }

  /** What is read of an assignment ends before a second equals sign. */
  lemma AfterEqualsOf(name: string, value: string)
    requires Free('=', name)
    ensures AfterEquals(name + ['='] + value) == Some(UpTo('=', value))
  {
    SplitCons('=', name, value);
    SplitStart('=', value);
  }

  /** `" ".join(ws)` */
  function JoinWords(ws: seq<string>): string {
    if ws == [] then "" else Line(ws)
  }
}
