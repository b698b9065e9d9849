/**
 Strings as the C and Python code use them: whitespace splitting, splitting on one
 separator, decimal numerals and `atoi`.
 */
module Text {

  // ---------- words ----------

  predicate IsSpace(c: char) {
    c == ' ' || c == '\t' || c == '\n' || c == '\r'
  }

  /** A non-empty run of characters without white space. */
  predicate IsToken(w: string) {
    w != "" && forall i :: 0 <= i < |w| ==> !IsSpace(w[i])
  }

  /** Length of the longest prefix of `s` without white space. */
  function TokenEnd(s: string): (n: nat)
    ensures n <= |s|
    ensures forall i :: 0 <= i < n ==> !IsSpace(s[i])
    ensures n < |s| ==> IsSpace(s[n])
  {
    if s == "" || IsSpace(s[0]) then 0 else 1 + TokenEnd(s[1..])
  }

  /** The white-space separated words of a text, as `str.split()` and the CLI tokenizer give them. */
  function Words(s: string): (ws: seq<string>)
    ensures forall i :: 0 <= i < |ws| ==> IsToken(ws[i])
    decreases |s|
  {
    if s == "" then []
    else if IsSpace(s[0]) then Words(s[1..])
    else
      var n := TokenEnd(s);
      [s[..n]] + Words(s[n..])
  }

  lemma TokenEndOf(w: string, rest: string)
    requires IsToken(w) && (rest == "" || IsSpace(rest[0]))
    ensures TokenEnd(w + rest) == |w|
  {
    var t := w + rest;
    assert forall i :: 0 <= i < |w| ==> t[i] == w[i];
    assert |w| < |t| ==> t[|w|] == rest[0];
  }

  lemma WordsCons(w: string, rest: string)
    requires IsToken(w) && (rest == "" || IsSpace(rest[0]))
    ensures Words(w + rest) == [w] + Words(rest)
  {
    TokenEndOf(w, rest);
    assert (w + rest)[..|w|] == w && (w + rest)[|w|..] == rest;
  }

  lemma WordsSkip(rest: string)
    ensures Words(" " + rest) == Words(rest)
  {
    assert (" " + rest)[1..] == rest;
  }

  /** The words of `ws`, each preceded by one blank. */
  function Spaced(ws: seq<string>): string {
    if ws == [] then "" else " " + ws[0] + Spaced(ws[1..])
  }

  lemma {:induction false} WordsOfSpaced(ws: seq<string>)
    requires forall i :: 0 <= i < |ws| ==> IsToken(ws[i])
    ensures Words(Spaced(ws)) == ws
  {
    if ws != [] {
      WordsOfSpaced(ws[1..]);
      var rest := Spaced(ws[1..]);
      assert Spaced(ws) == " " + (ws[0] + rest);
      WordsSkip(ws[0] + rest);
      WordsCons(ws[0], rest);
    }
  }

  /** A line made of its words with single blanks between them. */
  function Line(ws: seq<string>): string
    requires ws != []
  {
    ws[0] + Spaced(ws[1..])
  }

  lemma WordsOfLine(ws: seq<string>)
    requires ws != [] && forall i :: 0 <= i < |ws| ==> IsToken(ws[i])
    ensures Words(Line(ws)) == ws
  {
    WordsOfSpaced(ws[1..]);
    WordsCons(ws[0], Spaced(ws[1..]));
  }

  lemma {:induction false} SpacedAppend(a: seq<string>, b: seq<string>)
    ensures Spaced(a + b) == Spaced(a) + Spaced(b)
  {
    if a == [] {
      assert a + b == b;
    } else {
      assert (a + b)[1..] == a[1..] + b;
      SpacedAppend(a[1..], b);
    }
  }

  /** More words at the end of a line. */
  lemma {:induction false} LineAppend(a: seq<string>, b: seq<string>)
    requires a != []
    ensures Line(a) + Spaced(b) == Line(a + b)
  {
    SpacedAppend(a[1..], b);
    assert (a + b)[1..] == a[1..] + b;
  }

  // ---------- separators ----------

  predicate Free(sep: char, s: string) {
    forall i :: 0 <= i < |s| ==> s[i] != sep
  }

  /** `s.split(sep)`: the pieces between separators; never empty. */
  function SplitOn(sep: char, s: string): (parts: seq<string>)
    ensures |parts| > 0
  {
    if s == "" then [""]
    else if s[0] == sep then [""] + SplitOn(sep, s[1..])
    else
      var rest := SplitOn(sep, s[1..]);
      [[s[0]] + rest[0]] + rest[1..]
  }

  /** `sep.join(parts)` for a one-character separator. */
  function JoinWith(sep: char, parts: seq<string>): string {
    if parts == [] then ""
    else if |parts| == 1 then parts[0]
    else parts[0] + [sep] + JoinWith(sep, parts[1..])
  }

  lemma {:induction false} SplitFree(sep: char, s: string)
    requires Free(sep, s)
    ensures SplitOn(sep, s) == [s]
  {
    if s != "" {
      SplitFree(sep, s[1..]);
      assert [s[0]] + s[1..] == s;
    }
  }

  lemma {:induction false} SplitCons(sep: char, s: string, rest: string)
    requires Free(sep, s)
    ensures SplitOn(sep, s + [sep] + rest) == [s] + SplitOn(sep, rest)
  {
    var t := s + [sep] + rest;
    if s == "" {
      assert t[1..] == rest;
    } else {
      SplitCons(sep, s[1..], rest);
      assert t[1..] == s[1..] + [sep] + rest;
      assert [s[0]] + s[1..] == s;
    }
  }

  lemma {:induction false} SplitOfJoin(sep: char, parts: seq<string>)
    requires parts != [] && forall i :: 0 <= i < |parts| ==> Free(sep, parts[i])
    ensures SplitOn(sep, JoinWith(sep, parts)) == parts
  {
    if |parts| == 1 {
      SplitFree(sep, parts[0]);
    } else {
      SplitOfJoin(sep, parts[1..]);
      SplitCons(sep, parts[0], JoinWith(sep, parts[1..]));
    }
  }

  // ---------- numerals ----------

  predicate IsDigit(c: char) {
    '0' <= c <= '9'
  }

  predicate AllDigits(s: string) {
    forall i :: 0 <= i < |s| ==> IsDigit(s[i])
  }

  function DigitsValue(s: string): nat
    requires AllDigits(s)
  {
    if s == "" then 0
    else DigitsValue(s[..|s| - 1]) * 10 + (s[|s| - 1] as int - '0' as int)
  }

  function Digits(n: nat): (s: string)
    ensures s != "" && AllDigits(s)
    ensures DigitsValue(s) == n
  {
    var d := [('0' as int + n % 10) as char];
    if n < 10 then
      assert d[..0] == "";
      d
    else
      var s := Digits(n / 10) + d;
      assert s[..|s| - 1] == Digits(n / 10);
      s
  }

  /** `"%d"` and `str()` of an integer. */
  function Decimal(n: int): string {
    if n < 0 then "-" + Digits(-n) else Digits(n)
  }

  function DigitPrefix(s: string): (n: nat)
    ensures n <= |s| && AllDigits(s[..n])
    ensures n < |s| ==> !IsDigit(s[n])
  {
    if s == "" || !IsDigit(s[0]) then 0
    else
      var n := DigitPrefix(s[1..]);
      assert s[..n + 1] == [s[0]] + s[1..][..n];
      n + 1
  }

  /** C's `atoi`: leading white space, an optional sign, then the longest run of digits. */
  function Atoi(s: string): int
    decreases |s|
  {
    if s != "" && IsSpace(s[0]) then Atoi(s[1..])
    else if s != "" && s[0] == '-' then 0 - DigitsValue(s[1..][..DigitPrefix(s[1..])])
    else if s != "" && s[0] == '+' then DigitsValue(s[1..][..DigitPrefix(s[1..])])
    else DigitsValue(s[..DigitPrefix(s)])
  }

  lemma DigitPrefixAll(s: string)
    requires AllDigits(s)
    ensures DigitPrefix(s) == |s| && s[..|s|] == s
  {
  }

  lemma AtoiDigits(s: string)
    requires AllDigits(s)
    ensures Atoi(s) == DigitsValue(s)
  {
    DigitPrefixAll(s);
    if s != "" {
      assert IsDigit(s[0]);
    }
  }

  /** Reading back a printed integer gives that integer. */
  lemma AtoiDecimal(n: int)
    ensures Atoi(Decimal(n)) == n
    ensures IsToken(Decimal(n))
  {
    if n < 0 {
      var d := Digits(-n);
      assert ("-" + d)[1..] == d;
      DigitPrefixAll(d);
      assert forall i :: 0 < i < |"-" + d| ==> ("-" + d)[i] == d[i - 1] && IsDigit(d[i - 1]);
    } else {
      AtoiDigits(Digits(n));
      assert forall i :: 0 <= i < |Digits(n)| ==> IsDigit(Digits(n)[i]);
    }
  }

  lemma {:induction false} PrefixOfDigits(s: string, rest: string)
    requires AllDigits(s) && (rest == "" || !IsDigit(rest[0]))
    ensures DigitPrefix(s + rest) == |s| && (s + rest)[..|s|] == s
  {
    if s == "" {
      assert s + rest == rest;
    } else {
      assert (s + rest)[1..] == s[1..] + rest;
      assert s == [s[0]] + s[1..];
      PrefixOfDigits(s[1..], rest);
    }
  }

  lemma {:induction false} AtoiSkips(blank: string, s: string)
    requires forall i :: 0 <= i < |blank| ==> blank[i] in " \t\n\r"
    ensures Atoi(blank + s) == Atoi(s)
  {
    if blank == "" {
      assert blank + s == s;
    } else {
      assert (blank + s)[1..] == blank[1..] + s;
      AtoiSkips(blank[1..], s);
    }
  }

  /** A text of digits and then something else. */
  lemma AtoiPrefix(s: string, digits: string, rest: string)
    requires s == digits + rest && digits != "" && AllDigits(digits) && (rest == "" || !IsDigit(rest[0]))
    ensures Atoi(s) == DigitsValue(digits)
    ensures Atoi("+" + s) == DigitsValue(digits) && Atoi("-" + s) == 0 - DigitsValue(digits)
  {
    PrefixOfDigits(digits, rest);
    assert s[0] == digits[0] && IsDigit(digits[0]);
    assert ("+" + s)[1..] == s && ("-" + s)[1..] == s;
  }

  /** White space before a number and anything but a digit after it are ignored, a sign is obeyed. */
  lemma AtoiReads(blank: string, n: nat, rest: string)
    requires (forall i :: 0 <= i < |blank| ==> blank[i] in " \t\n\r") && (rest == "" || !('0' <= rest[0] <= '9'))
    ensures Atoi(blank + (Digits(n) + rest)) == n
    ensures Atoi(blank + ("+" + (Digits(n) + rest))) == n
    ensures Atoi(blank + ("-" + (Digits(n) + rest))) == 0 - n
  {
    var text := Digits(n) + rest;
    AtoiPrefix(text, Digits(n), rest);
    AtoiSkips(blank, text);
    AtoiSkips(blank, "+" + text);
    AtoiSkips(blank, "-" + text);
  }
}
