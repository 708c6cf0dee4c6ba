/** The parts of Go's text handling that the configuration, the layouts and the series names
    go through. Strings are sequences of characters. */
module Text {
  import opened GoInt

  datatype Option<+T> = None | Some(value: T)

  // ---------------------------------------------------------------- numbers

  predicate IsDigit(c: char) {
    '0' <= c <= '9'
  }

  function Digit(c: char): nat
    requires IsDigit(c)
  {
    (c - '0') as int
  }

  predicate AllDigits(s: string) {
    forall i :: 0 <= i < |s| ==> IsDigit(s[i])
  }

  function Value(s: string): nat
    requires AllDigits(s)
  {
    if s == "" then 0 else 10 * Value(s[..|s| - 1]) + Digit(s[|s| - 1])
  }

  /** `strconv.Atoi`: an optional sign, at least one digit, and a result that fits. */
  function Atoi(s: string): Option<Int64> {
    var signed := s != "" && (s[0] == '-' || s[0] == '+');
    var digits := if signed then s[1..] else s;
    if digits == "" || !AllDigits(digits) then None
    else
      var v: int := if s[0] == '-' then 0 - Value(digits) else Value(digits);
      if FitsInt(v) then Some(v) else None
  }

  function NatToString(n: nat): (s: string)
    ensures s != "" && AllDigits(s) && Value(s) == n
  {
    var last := '0' + (n % 10) as char;
    if n < 10 then [last]
    else
      var front := NatToString(n / 10);
      assert (front + [last])[..|front|] == front;
      front + [last]
  }

  /** `strconv.Itoa`, and `%d`. */
  function Itoa(n: int): string {
    if n < 0 then "-" + NatToString(-n) else NatToString(n)
  }

  lemma AtoiItoa(n: Int64)
    ensures Atoi(Itoa(n)) == Some(n)
  {
    hide NatToString, Value;
    var s, k: int := Itoa(n), n;
    if n < 0 {
      assert s[0] == '-' && s[1..] == NatToString(-k);
    } else {
      assert IsDigit(NatToString(n)[0]);
    }
  }

  function Pow10(n: nat): nat {
    if n == 0 then 1 else 10 * Pow10(n - 1)
  }

  lemma {:induction false} ValueBound(s: string)
    requires AllDigits(s)
    ensures Value(s) < Pow10(|s|)
    ensures s != "" && s[0] != '0' ==> Pow10(|s| - 1) <= Value(s)
  {
    if |s| > 0 {
      ValueBound(s[..|s| - 1]);
      if |s| > 1 {
        assert s[..|s| - 1][0] == s[0];
      }
    }
  }

  lemma {:induction false} Pow10Monotone(m: nat, n: nat)
    requires m <= n
    ensures Pow10(m) <= Pow10(n)
  {
    if m < n {
      Pow10Monotone(m, n - 1);
    }
  }

  /** A longer number without a leading zero is the greater one. */
  lemma LongerIsGreater(s: string, t: string)
    requires AllDigits(s) && AllDigits(t)
    requires |s| < |t| && t[0] != '0'
    ensures Value(s) < Value(t)
  {
    ValueBound(s);
    ValueBound(t);
    Pow10Monotone(|s|, |t| - 1);
  }

  lemma {:induction false} SameLengthSameValue(s: string, t: string)
    requires AllDigits(s) && AllDigits(t)
    requires |s| == |t| && Value(s) == Value(t)
    ensures s == t
  {
    if s != "" {
      SameLengthSameValue(s[..|s| - 1], t[..|t| - 1]);
      assert s == s[..|s| - 1] + [s[|s| - 1]];
      assert t == t[..|t| - 1] + [t[|t| - 1]];
    }
  }

  // ---------------------------------------------------------------- letters and blanks

  /** `strings.ToLower`, on the letters that the names in question use. */
  function LowerChar(c: char): char {
    if 'A' <= c <= 'Z' then c - 'A' + 'a' else c
  }

  function ToLower(s: string): (r: string)
    ensures |r| == |s|
  {
    seq(|s|, i requires 0 <= i < |s| => LowerChar(s[i]))
  }

  /** Unicode white space. */
  predicate IsSpace(c: char) {
    || '\t' <= c <= '\r' || c == ' ' || c == '\U{0085}' || c == '\U{00A0}' || c == '\U{1680}'
    || '\U{2000}' <= c <= '\U{200A}' || c == '\U{2028}' || c == '\U{2029}' || c == '\U{202F}'
    || c == '\U{205F}' || c == '\U{3000}'
  }

  function TrimLeft(s: string): string {
    if s != "" && IsSpace(s[0]) then TrimLeft(s[1..]) else s
  }

  function TrimRight(s: string): string {
    if s != "" && IsSpace(s[|s| - 1]) then TrimRight(s[..|s| - 1]) else s
  }

  /** `strings.TrimSpace`. */
  function TrimSpace(s: string): string {
    TrimRight(TrimLeft(s))
  }

  predicate Trimmed(s: string) {
    s == "" || (!IsSpace(s[0]) && !IsSpace(s[|s| - 1]))
  }

  lemma {:induction false} TrimLeftTrims(s: string)
    ensures var r := TrimLeft(s); |r| <= |s| && r == s[|s| - |r|..] && (r != "" ==> !IsSpace(r[0]))
  {
    if s != "" && IsSpace(s[0]) {
      TrimLeftTrims(s[1..]);
    }
  }

  lemma {:induction false} TrimRightTrims(s: string)
    ensures var r := TrimRight(s); |r| <= |s| && r == s[..|r|] && (r != "" ==> !IsSpace(r[|r| - 1]))
  {
    if s != "" && IsSpace(s[|s| - 1]) {
      TrimRightTrims(s[..|s| - 1]);
    }
  }

  /** Trimming gives a trimmed part of the string, and leaves a trimmed string alone. */
  lemma TrimSpaceTrims(s: string)
    ensures Trimmed(TrimSpace(s))
    ensures exists i, j :: 0 <= i <= j <= |s| && TrimSpace(s) == s[i..j]
    ensures Trimmed(s) ==> TrimSpace(s) == s
  {
    TrimLeftTrims(s);
    var l := TrimLeft(s);
    TrimRightTrims(l);
    assert TrimSpace(s) == s[|s| - |l|..|s| - |l| + |TrimRight(l)|];
  }

  // ---------------------------------------------------------------- splitting and joining

  /** `strings.Split` at a single character. */
  function Split(s: string, sep: char): (parts: seq<string>)
    ensures |parts| >= 1
  {
    if s == "" then [""]
    else if s[0] == sep then [""] + Split(s[1..], sep)
    else
      var parts := Split(s[1..], sep);
      [[s[0]] + parts[0]] + parts[1..]
  }

  function Join(parts: seq<string>, sep: char): string {
    if parts == [] then ""
    else if |parts| == 1 then parts[0]
    else parts[0] + [sep] + Join(parts[1..], sep)
  }

  predicate Lacks(s: string, c: char) {
    forall i :: 0 <= i < |s| ==> s[i] != c
  }

  lemma {:induction false} SplitFirst(first: string, rest: string, sep: char)
    requires Lacks(first, sep)
    ensures Split(first, sep) == [first]
    ensures Split(first + [sep] + rest, sep) == [first] + Split(rest, sep)
  {
    var s := first + [sep] + rest;
    if first == "" {
      assert s[1..] == rest;
    } else {
      assert forall i :: 0 <= i < |first[1..]| ==> first[1..][i] == first[i + 1];
      SplitFirst(first[1..], rest, sep);
      assert s[1..] == first[1..] + [sep] + rest;
      assert [first[0]] + first[1..] == first;
    }
  }

  /** Splitting undoes joining, unless a part contains the separator or there is no part. */
  lemma {:induction false} SplitJoin(parts: seq<string>, sep: char)
    requires parts != [] && forall i :: 0 <= i < |parts| ==> Lacks(parts[i], sep)
    ensures Split(Join(parts, sep), sep) == parts
  {
    if |parts| == 1 {
      SplitFirst(parts[0], "", sep);
    } else {
      SplitJoin(parts[1..], sep);
      SplitFirst(parts[0], Join(parts[1..], sep), sep);
    }
  }

  /** The parts contain no separator, and joining undoes splitting. */
  lemma {:induction false} SplitParts(s: string, sep: char)
    ensures forall i :: 0 <= i < |Split(s, sep)| ==> Lacks(Split(s, sep)[i], sep)
    ensures Join(Split(s, sep), sep) == s
  {
    if s != "" {
      SplitParts(s[1..], sep);
      var parts := Split(s[1..], sep);
      assert s == [s[0]] + s[1..];
      if s[0] == sep {
        assert Split(s, sep)[1..] == parts;
      } else {
        assert Split(s, sep)[1..] == parts[1..];
        assert forall i :: 1 <= i < |parts| ==> Split(s, sep)[i] == parts[i];
      }
    }
  }

  // ---------------------------------------------------------------- lines

  function DropCR(line: string): string {
    if line != "" && line[|line| - 1] == '\r' then line[..|line| - 1] else line
  }

  function DropCRs(lines: seq<string>): (r: seq<string>)
    ensures |r| == |lines|
  {
    seq(|lines|, i requires 0 <= i < |lines| => DropCR(lines[i]))
  }

  /** The lines a `bufio.Scanner` yields; a line ends with a line feed, except that the last one need not. */
  function Lines(text: string): seq<string> {
    var parts := Split(text, '\n');
    DropCRs(if parts[|parts| - 1] == "" then parts[..|parts| - 1] else parts)
  }

  function Unlines(lines: seq<string>): string {
    if lines == [] then "" else lines[0] + "\n" + Unlines(lines[1..])
  }

  predicate AllLines(lines: seq<string>) {
    forall i :: 0 <= i < |lines| ==> Lacks(lines[i], '\n')
  }

  lemma {:induction false} SplitUnlines(lines: seq<string>)
    requires AllLines(lines)
    ensures Split(Unlines(lines), '\n') == lines + [""]
  {
    if lines != [] {
      SplitUnlines(lines[1..]);
      SplitFirst(lines[0], Unlines(lines[1..]), '\n');
      assert ['\n'] == "\n";
      assert lines + [""] == [lines[0]] + (lines[1..] + [""]);
    }
  }

  lemma LinesOfUnlines(lines: seq<string>)
    requires AllLines(lines)
    ensures Lines(Unlines(lines)) == DropCRs(lines)
  {
    SplitUnlines(lines);
    assert (lines + [""])[..|lines|] == lines;
  }

  lemma {:induction false} UnlinesMore(lines: seq<string>, more: seq<string>)
    ensures Unlines(lines + more) == Unlines(lines) + Unlines(more)
  {
    if lines == [] {
      assert lines + more == more;
    } else {
      UnlinesMore(lines[1..], more);
      assert (lines + more)[1..] == lines[1..] + more;
    }
  }

  lemma LinesLackLineFeeds(text: string)
    ensures AllLines(Lines(text))
  {
    SplitParts(text, '\n');
  }

  /** A carriage return at the end of a line is white space, so trimming never sees it. */
  lemma TrimIgnoresCR(line: string)
    ensures TrimSpace(DropCR(line)) == TrimSpace(line)
  {
    if line != "" && line[|line| - 1] == '\r' {
      TrimBeforeSpace(line[..|line| - 1], '\r');
      assert line == line[..|line| - 1] + ['\r'];
    }
  }

  lemma {:induction false} TrimBeforeSpace(s: string, c: char)
    requires IsSpace(c)
    ensures TrimSpace(s + [c]) == TrimSpace(s)
  {
    if s == "" {
      assert (s + [c])[1..] == "";
    } else if IsSpace(s[0]) {
      assert (s + [c])[1..] == s[1..] + [c];
      TrimBeforeSpace(s[1..], c);
    } else {
      assert (s + [c])[..|s|] == s;
    }
  }

  /** `strconv.ParseBool`. */
  function ParseBool(s: string): Option<bool> {
    if s == "1" || s == "t" || s == "T" || s == "TRUE" || s == "true" || s == "True" then Some(true)
    else if s == "0" || s == "f" || s == "F" || s == "FALSE" || s == "false" || s == "False" then Some(false)
    else None
  }

  /** `%t`. */
  function FormatBool(b: bool): string {
    if b then "true" else "false"
  }

  // ---------------------------------------------------------------- words

  function WordLength(s: string): (n: nat)
    ensures n <= |s| && (s != "" && !IsSpace(s[0]) ==> n >= 1)
  {
    if s == "" || IsSpace(s[0]) then 0 else 1 + WordLength(s[1..])
  }

  /** `strings.Fields`. */
  function Fields(s: string): seq<string>
    decreases |s|
  {
    if s == "" then []
    else if IsSpace(s[0]) then Fields(s[1..])
    else [s[..WordLength(s)]] + Fields(s[WordLength(s)..])
  }

  predicate IsWord(w: string) {
    w != "" && forall i :: 0 <= i < |w| ==> !IsSpace(w[i])
  }

  predicate IsBlank(s: string) {
    forall i :: 0 <= i < |s| ==> IsSpace(s[i])
  }

  lemma {:induction false} WordLengthOf(w: string, rest: string)
    requires forall i :: 0 <= i < |w| ==> !IsSpace(w[i])
    requires rest == "" || IsSpace(rest[0])
    ensures WordLength(w + rest) == |w|
  {
    if w == "" {
      assert w + rest == rest;
    } else {
      assert (w + rest)[1..] == w[1..] + rest;
      WordLengthOf(w[1..], rest);
    }
  }

  lemma {:induction false} BlanksSkipped(blanks: string, rest: string)
    requires IsBlank(blanks)
    ensures Fields(blanks + rest) == Fields(rest)
  {
    if blanks == "" {
      assert blanks + rest == rest;
    } else {
      assert (blanks + rest)[1..] == blanks[1..] + rest;
      BlanksSkipped(blanks[1..], rest);
    }
  }

  lemma WordRead(w: string, rest: string)
    requires IsWord(w) && (rest == "" || IsSpace(rest[0]))
    ensures Fields(w + rest) == [w] + Fields(rest)
  {
    WordLengthOf(w, rest);
    assert (w + rest)[..|w|] == w && (w + rest)[|w|..] == rest;
  }

  lemma {:induction false} FieldsAreWords(s: string)
    ensures forall i :: 0 <= i < |Fields(s)| ==> IsWord(Fields(s)[i])
    decreases |s|
  {
    if s != "" {
      if IsSpace(s[0]) {
        FieldsAreWords(s[1..]);
      } else {
        WordIsWord(s);
        FieldsAreWords(s[WordLength(s)..]);
      }
    }
  }

  lemma {:induction false} WordIsWord(s: string)
    ensures forall i :: 0 <= i < WordLength(s) ==> !IsSpace(s[i])
    ensures WordLength(s) < |s| ==> IsSpace(s[WordLength(s)])
  {
    if s != "" && !IsSpace(s[0]) {
      WordIsWord(s[1..]);
      assert forall i :: 1 <= i < |s| ==> s[i] == s[1..][i - 1];
    }
  }

  /** Trimming changes no words, and leaves nothing exactly when there are none. */
  lemma FieldsOfTrimmed(s: string)
    ensures Fields(TrimSpace(s)) == Fields(s)
    ensures TrimSpace(s) == "" <==> Fields(s) == []
    ensures TrimSpace(s) != "" ==> Fields(s)[0] != "" && TrimSpace(s)[0] == Fields(s)[0][0]
  {
    FieldsTrimLeft(s);
    FieldsTrimRight(TrimLeft(s));
    TrimSpaceTrims(s);
    TrimLeftTrims(s);
  }

  lemma {:induction false} FieldsTrimLeft(s: string)
    ensures Fields(TrimLeft(s)) == Fields(s)
  {
    if s != "" && IsSpace(s[0]) {
      FieldsTrimLeft(s[1..]);
    }
  }

  lemma {:induction false} FieldsTrimRight(s: string)
    ensures Fields(TrimRight(s)) == Fields(s)
  {
    if s != "" && IsSpace(s[|s| - 1]) {
      FieldsTrimRight(s[..|s| - 1]);
      FieldsBeforeBlank(s[..|s| - 1], s[|s| - 1]);
      assert s == s[..|s| - 1] + [s[|s| - 1]];
    }
  }

  lemma {:induction false} FieldsBeforeBlank(s: string, c: char)
    requires IsSpace(c)
    ensures Fields(s + [c]) == Fields(s)
    decreases |s|
  {
    if s == "" {
      assert s + [c] == [c] && [c][1..] == "";
    } else if IsSpace(s[0]) {
      assert (s + [c])[1..] == s[1..] + [c];
      FieldsBeforeBlank(s[1..], c);
    } else {
      var n := WordLength(s);
      WordIsWord(s);
      var rest := s[n..];
      assert s == s[..n] + rest && s + [c] == s[..n] + (rest + [c]);
      WordRead(s[..n], rest + [c]);
      FieldsBeforeBlank(rest, c);
    }
  }

  // ---------------------------------------------------------------- letter case

  function Lowered(parts: seq<string>): (r: seq<string>)
    ensures |r| == |parts|
  {
    seq(|parts|, i requires 0 <= i < |parts| => ToLower(parts[i]))
  }

  lemma LowerSlices(s: string, i: nat)
    requires i <= |s|
    ensures ToLower(s[i..]) == ToLower(s)[i..] && ToLower(s[..i]) == ToLower(s)[..i]
  {
  }

  lemma {:induction false} SplitLower(s: string, sep: char)
    requires !('A' <= sep <= 'Z') && !('a' <= sep <= 'z')
    ensures Split(ToLower(s), sep) == Lowered(Split(s, sep))
  {
    if s != "" {
      LowerSlices(s, 1);
      SplitLower(s[1..], sep);
      var parts := Split(s[1..], sep);
      if s[0] != sep {
        assert ToLower([s[0]] + parts[0]) == [LowerChar(s[0])] + ToLower(parts[0]);
        assert Lowered(parts)[1..] == Lowered(parts[1..]);
      }
    }
  }

  lemma {:induction false} WordLengthLower(s: string)
    ensures WordLength(ToLower(s)) == WordLength(s)
  {
    if s != "" {
      LowerSlices(s, 1);
      WordLengthLower(s[1..]);
    }
  }

  lemma {:induction false} FieldsLower(s: string)
    ensures Fields(ToLower(s)) == Lowered(Fields(s))
    decreases |s|
  {
    if s != "" {
      if IsSpace(s[0]) {
        LowerSlices(s, 1);
        FieldsLower(s[1..]);
      } else {
        WordLengthLower(s);
        LowerSlices(s, WordLength(s));
        FieldsLower(s[WordLength(s)..]);
      }
    }
  }

  lemma AtoiLower(s: string)
    ensures Atoi(ToLower(s)) == Atoi(s)
  {
    if AllDigits(s) {
      assert ToLower(s) == s;
    } else if s[1..] != "" && AllDigits(s[1..]) {
      LowerSlices(s, 1);
      assert ToLower(s[1..]) == s[1..];
    } else {
      LowerSlices(s, 1);
      NotDigitsLower(s);
      NotDigitsLower(s[1..]);
    }
  }

  lemma NotDigitsLower(s: string)
    ensures AllDigits(ToLower(s)) <==> AllDigits(s)
  {
    forall i | 0 <= i < |s|
      ensures IsDigit(ToLower(s)[i]) <==> IsDigit(s[i])
    {
    }
  }

  lemma LowerTwice(s: string)
    ensures ToLower(ToLower(s)) == ToLower(s)
  {
  }
}
