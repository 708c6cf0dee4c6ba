/** The layout language of layout/parser.go: `(rowspan:)?widget(/weight)?`, a row to a line. */
module LayoutParser {
  import opened GoInt
  import opened Text
  import L = Layout

  /** A widget as written, before the weights of its row are known. */
  datatype Written = Written(widget: string, weight: Int64, height: Int64)

  /** A number that counts: anything else, and anything below one, is one. */
  function AtLeastOne(s: string): (n: Int64)
    ensures n >= 1
  {
    match Atoi(s)
    case Some(v) => if v < 1 then 1 else v
    case None => 1
  }

  function ParseWidget(w: string): (r: Written)
    ensures r.weight >= 1 && r.height >= 1
  {
    var ks := Split(w, '/');
    var rs := Split(ks[0], ':');
    Written(ToLower(if |rs| > 1 then rs[1] else rs[0]),
            if |ks| > 1 then AtLeastOne(ks[1]) else 1,
            if |rs| > 1 then AtLeastOne(rs[0]) else 1)
  }

  function ParseWidgets(ws: seq<string>): (r: seq<Written>)
    ensures |r| == |ws|
  {
    seq(|ws|, i requires 0 <= i < |ws| => ParseWidget(ws[i]))
  }

  function WrittenWeights(ws: seq<Written>): (r: seq<int>)
    ensures |r| == |ws|
  {
    seq(|ws|, i requires 0 <= i < |ws| => ws[i].weight)
  }

  /** The running total, in 64 bits. */
  function WeightTotal(ns: seq<int>): Int64 {
    if ns == [] then 0 else Wrap(WeightTotal(ns[..|ns| - 1]) + ns[|ns| - 1])
  }

  /** What the weights are divided by. */
  function Divisor(ws: seq<Written>): (d: Int64)
    ensures d >= 1
  {
    Max(WeightTotal(WrittenWeights(ws)), 1)
  }

  function Normalised(ws: seq<Written>): (row: L.LayoutRow)
    ensures |row| == |ws|
  {
    seq(|ws|, i requires 0 <= i < |ws| =>
      L.WidgetRule(ws[i].widget, ws[i].weight as real / Divisor(ws) as real, ws[i].height))
  }

  predicate Skipped(line: string) {
    var l := TrimSpace(line);
    l == "" || l[0] == '#'
  }

  function ParseLine(line: string): L.LayoutRow {
    Normalised(ParseWidgets(Fields(TrimSpace(line))))
  }

  function ParseLines(lines: seq<string>): seq<L.LayoutRow> {
    if lines == [] then []
    else ParseLines(lines[..|lines| - 1]) + if Skipped(lines[|lines| - 1]) then [] else [ParseLine(lines[|lines| - 1])]
  }

  // ---------------------------------------------------------------- the parser

  method ParseField(w: string) returns (wr: Written)
    ensures wr == ParseWidget(w)
  {
    hide Atoi, Split, ToLower;
    var ks := Split(w, '/');
    var rs := Split(ks[0], ':');
    var wid, height, weight;
    if |rs| > 1 {
      var v := Atoi(rs[0]);
      height := if v.None? then 1 else v.value;
      if height < 1 {
        height := 1;
      }
      wid := rs[1];
    } else {
      height := 1;
      wid := rs[0];
    }
    weight := 1;
    if |ks| > 1 {
      var v := Atoi(ks[1]);
      weight := if v.None? then 1 else v.value;
      if weight < 1 {
        weight := 1;
      }
    }
    wr := Written(ToLower(wid), weight, height);
  }

  method ParseLayout(text: string) returns (rows: seq<L.LayoutRow>)
    ensures rows == ParseLines(Lines(text))
  {
    hide ParseWidget, TrimSpace, Fields, Lines, Divisor, WeightTotal;
    var lines := Lines(text);
    rows := [];
    for n := 0 to |lines|
      invariant rows == ParseLines(lines[..n])
    {
      assert lines[..n + 1][..n] == lines[..n];
      var l := TrimSpace(lines[n]);
      if l == "" || l[0] == '#' {
        continue;
      }
      var row := ParseRow(Fields(l));
      rows := rows + [row];
    }
    assert lines[..|lines|] == lines;
  }

  method ParseRow(ws: seq<string>) returns (row: L.LayoutRow)
    ensures row == Normalised(ParseWidgets(ws))
  {
    hide ParseWidget;
    var written: seq<Written> := [];
    var weightTotal: Int64 := 0;
    for i := 0 to |ws|
      invariant written == ParseWidgets(ws[..i])
      invariant weightTotal == WeightTotal(WrittenWeights(written))
    {
      var wr := ParseField(ws[i]);
      assert ParseWidgets(ws[..i + 1]) == ParseWidgets(ws[..i]) + [wr];
      OneMoreWeight(written, wr);
      weightTotal := Wrap(weightTotal + wr.weight);
      written := written + [wr];
    }
    assert ws[..|ws|] == ws;
    if weightTotal <= 1 {
      weightTotal := 1;
    }
    row := [];
    for i := 0 to |written|
      invariant |row| == i
      invariant forall k :: 0 <= k < i ==> row[k] == Normalised(written)[k]
    {
      row := row + [L.WidgetRule(written[i].widget, written[i].weight as real / weightTotal as real, written[i].height)];
    }
  }

  lemma OneMoreWeight(ws: seq<Written>, w: Written)
    ensures WrittenWeights(ws + [w]) == WrittenWeights(ws) + [w.weight as int]
    ensures WeightTotal(WrittenWeights(ws + [w])) == Wrap(WeightTotal(WrittenWeights(ws)) + w.weight)
  {
    assert WrittenWeights(ws + [w]) == WrittenWeights(ws) + [w.weight as int];
    assert WrittenWeights(ws + [w])[..|ws|] == WrittenWeights(ws);
  }

  // ---------------------------------------------------------------- what is parsed

  /** Every parsed layout can be packed: no row is empty, and every widget is at least one row high. */
  lemma {:induction false} ParsedIsLayout(lines: seq<string>)
    ensures L.IsLayout(ParseLines(lines))
  {
    if lines != [] {
      var line := lines[|lines| - 1];
      ParsedIsLayout(lines[..|lines| - 1]);
      if !Skipped(line) {
        ParsedLineCanBePacked(line);
      }
      hide Skipped, ParseLine;
    }
  }

  lemma ParsedLineCanBePacked(line: string)
    requires !Skipped(line)
    ensures ParseLine(line) != [] && forall j :: 0 <= j < |ParseLine(line)| ==> ParseLine(line)[j].height >= 1
  {
    var l := TrimSpace(line);
    TrimSpaceTrims(line);
    TrimSpaceTrims(l);
    FieldsOfTrimmed(l);
    hide TrimSpace, Fields, ParseWidget, Divisor;
    assert Fields(l) != [];
  }

  /** 64-bit addition goes wrong only past the largest number. */
  lemma {:induction false} TotalWraps(ns: seq<int>)
    requires forall i :: 0 <= i < |ns| ==> 1 <= ns[i] <= MAX_INT
    ensures WeightTotal(ns) == Wrap(L.Sum(ns)) && L.Sum(ns) >= |ns|
  {
    if ns != [] {
      TotalWraps(ns[..|ns| - 1]);
      WrapTwice(L.Sum(ns[..|ns| - 1]), ns[|ns| - 1]);
    }
  }

  /** The weights of a row share it out in proportion to the numbers written, unless these add up to
      more than 64 bits hold: then, and only then, the shares no longer add up to one. */
  lemma SharesAddUpIffTotalFits(ws: seq<Written>)
    requires ws != [] && forall i :: 0 <= i < |ws| ==> ws[i].weight >= 1
    ensures L.SumReals(L.Weights(Normalised(ws))) == 1.0 <==> L.Sum(WrittenWeights(ws)) <= MAX_INT
    ensures forall i :: 0 <= i < |ws| ==> Normalised(ws)[i].weight > 0.0
  {
    var ns := WrittenWeights(ws);
    TotalWraps(ns);
    WeightsAre(ws);
    hide Wrap, WeightTotal, WrittenWeights, Normalised, L.Weights, L.Sum, L.SumReals;
    var total, d := L.Sum(ns), Divisor(ws);
    WrapTwice(total, 0);
    L.SharesOf(ns, d);
    assert total <= MAX_INT ==> d == total;
    L.WholeIffEqual(total, d);
  }

  /** As long as they fit, every widget of a row gets the share that its number has in their sum, and keeps its
      name and height. */
  lemma SharesInProportion(ws: seq<Written>, i: nat)
    requires i < |ws| && (forall j :: 0 <= j < |ws| ==> ws[j].weight >= 1) && L.Sum(WrittenWeights(ws)) <= MAX_INT
    ensures var rule := Normalised(ws)[i];
            && rule.weight * L.Sum(WrittenWeights(ws)) as real == ws[i].weight as real
            && rule.widget == ws[i].widget && rule.height == ws[i].height
  {
    var ns := WrittenWeights(ws);
    TotalWraps(ns);
    hide Wrap, WeightTotal, WrittenWeights, L.Sum;
    WrapTwice(L.Sum(ns), 0);
    L.ShareTimesTotal(ws[i].weight, L.Sum(ns));
  }

  lemma WeightsAre(ws: seq<Written>)
    ensures var ns, d := WrittenWeights(ws), Divisor(ws);
            L.Weights(Normalised(ws)) == seq(|ns|, i requires 0 <= i < |ns| => ns[i] as real / d as real)
    ensures forall i :: 0 <= i < |ws| && ws[i].weight >= 1 ==> Normalised(ws)[i].weight > 0.0
  {
    hide Divisor;
  }

  /** Two lines with the same words mean the same, however they are spaced. */
  lemma BlanksDoNotMatter(a: string, b: string)
    requires Fields(a) == Fields(b)
    ensures Skipped(a) <==> Skipped(b)
    ensures ParseLine(a) == ParseLine(b)
  {
    FieldsOfTrimmed(a);
    FieldsOfTrimmed(b);
    hide TrimSpace, Fields, Normalised, ParseWidgets;
  }

  /** A line of words with any blanks before, between and behind them has these words. */
  lemma {:induction false} SpacedWords(words: seq<string>, gaps: seq<string>)
    requires |gaps| == |words| + 1
    requires forall i :: 0 <= i < |words| ==> IsWord(words[i])
    requires forall i :: 0 <= i < |gaps| ==> IsBlank(gaps[i]) && (0 < i < |words| ==> gaps[i] != "")
    ensures Fields(Spaced(words, gaps)) == words
  {
    BlanksSkipped(gaps[0], if words == [] then "" else words[0] + Spaced(words[1..], gaps[1..]));
    if words == [] {
      assert gaps[0] + "" == gaps[0];
    } else {
      assert forall i :: 0 <= i < |gaps[1..]| ==> gaps[1..][i] == gaps[i + 1];
      SpacedWords(words[1..], gaps[1..]);
      assert gaps[0] + words[0] + Spaced(words[1..], gaps[1..]) == gaps[0] + (words[0] + Spaced(words[1..], gaps[1..]));
      WordRead(words[0], Spaced(words[1..], gaps[1..]));
    }
  }

  function Spaced(words: seq<string>, gaps: seq<string>): string
    requires |gaps| == |words| + 1
  {
    if words == [] then gaps[0] else gaps[0] + words[0] + Spaced(words[1..], gaps[1..])
  }

  /** Blank lines and comments can go anywhere. */
  lemma {:induction false} SkippedLineDropped(before: seq<string>, line: string, after: seq<string>)
    requires Skipped(line)
    ensures ParseLines(before + [line] + after) == ParseLines(before + after)
    decreases |after|
  {
    hide ParseLines, Skipped, ParseLine;
    if after == [] {
      assert before + [line] + after == before + [line] && before + after == before;
      OneMoreLine(before, line);
    } else {
      var front, last := after[..|after| - 1], after[|after| - 1];
      SkippedLineDropped(before, line, front);
      OneMoreLine(before + [line] + front, last);
      assert before + [line] + after == (before + [line] + front) + [last];
      OneMoreLine(before + front, last);
      assert before + after == (before + front) + [last];
    }
  }

  lemma OneMoreLine(lines: seq<string>, line: string)
    ensures ParseLines(lines + [line]) == ParseLines(lines) + if Skipped(line) then [] else [ParseLine(line)]
    ensures Skipped(line) ==> ParseLines(lines + [line]) == ParseLines(lines)
  {
    hide Skipped, ParseLine;
    assert (lines + [line])[..|lines|] == lines;
  }

  lemma WidgetLower(w: string)
    ensures ParseWidget(ToLower(w)) == ParseWidget(w)
  {
    SplitLower(w, '/');
    var ks := Split(w, '/');
    SplitLower(ks[0], ':');
    var rs := Split(ks[0], ':');
    AtoiLower(rs[0]);
    LowerTwice(if |rs| > 1 then rs[1] else rs[0]);
    if |ks| > 1 {
      AtoiLower(ks[1]);
    }
    hide Split, Atoi, ToLower;
  }

  lemma FirstOfLowered(words: seq<string>)
    requires words != [] && words[0] != ""
    ensures Lowered(words)[0] != "" && Lowered(words)[0][0] == LowerChar(words[0][0])
  {
  }

  /** Letter case makes no difference anywhere in a line. */
  lemma CaseDoesNotMatter(line: string)
    ensures Skipped(ToLower(line)) <==> Skipped(line)
    ensures ParseLine(ToLower(line)) == ParseLine(line)
  {
    var words := Fields(line);
    hide TrimSpace, Fields, Normalised, ParseWidget, ToLower;
    FieldsLower(line);
    FieldsOfTrimmed(line);
    FieldsOfTrimmed(ToLower(line));
    forall i | 0 <= i < |words|
      ensures ParseWidget(ToLower(words[i])) == ParseWidget(words[i])
    {
      WidgetLower(words[i]);
    }
    assert ParseWidgets(Lowered(words)) == ParseWidgets(words);
    if words != [] && words[0] != "" {
      FirstOfLowered(words);
    }
  }

  /** A widget written in full is read as written. */
  lemma FullSyntax(height: Int64, name: string, weight: Int64)
    requires height >= 1 && weight >= 1 && Lacks(name, '/') && Lacks(name, ':')
    ensures ParseWidget(Itoa(height) + ":" + name + "/" + Itoa(weight)) == Written(ToLower(name), weight, height)
  {
    NumberLacks(height);
    NumberLacks(weight);
    AtoiItoa(height);
    AtoiItoa(weight);
    hide Itoa, Atoi, ToLower;
    var left, right := Itoa(height) + ":" + name, Itoa(weight);
    assert left == Itoa(height) + [':'] + name;
    assert left + "/" + right == left + ['/'] + right;
    SplitFirst(left, right, '/');
    SplitFirst(right, "", '/');
    SplitFirst(Itoa(height), name, ':');
    SplitFirst(name, "", ':');
    hide Split;
  }

  /** A span without a weight, ... */
  lemma SpanSyntax(height: Int64, name: string)
    requires height >= 1 && Lacks(name, '/') && Lacks(name, ':')
    ensures ParseWidget(Itoa(height) + ":" + name) == Written(ToLower(name), 1, height)
  {
    NumberLacks(height);
    AtoiItoa(height);
    hide Itoa, Atoi, ToLower;
    var left := Itoa(height) + ":" + name;
    assert left == Itoa(height) + [':'] + name;
    SplitFirst(left, "", '/');
    SplitFirst(Itoa(height), name, ':');
    SplitFirst(name, "", ':');
    hide Split;
  }

  /** ... and a name alone. */
  lemma NameSyntax(name: string)
    requires Lacks(name, '/') && Lacks(name, ':')
    ensures ParseWidget(name) == Written(ToLower(name), 1, 1)
  {
    SplitFirst(name, "", '/');
    SplitFirst(name, "", ':');
    hide Split, ToLower;
  }

  /** Whatever stands for the height and the weight: what is no number, or less than one, is read as one. */
  lemma AnySyntax(height: string, name: string, weight: string)
    requires Lacks(height, '/') && Lacks(height, ':') && Lacks(name, '/') && Lacks(name, ':') && Lacks(weight, '/')
    ensures var w := ParseWidget(height + ":" + name + "/" + weight);
            && w.widget == ToLower(name)
            && (match Atoi(height) case Some(v) => w.height == Max(v, 1) case None => w.height == 1)
            && (match Atoi(weight) case Some(v) => w.weight == Max(v, 1) case None => w.weight == 1)
  {
    hide Atoi, ToLower;
    PartsOfWord(height, name, weight);
    hide Split;
  }

  lemma PartsOfWord(height: string, name: string, weight: string)
    requires Lacks(height, '/') && Lacks(height, ':') && Lacks(name, '/') && Lacks(name, ':') && Lacks(weight, '/')
    ensures Split(height + ":" + name + "/" + weight, '/') == [height + ":" + name, weight]
    ensures Split(height + ":" + name, ':') == [height, name]
  {
    var left := height + ":" + name;
    assert left == height + [':'] + name;
    assert left + "/" + weight == left + ['/'] + weight;
    SplitFirst(left, weight, '/');
    SplitFirst(weight, "", '/');
    SplitFirst(height, name, ':');
    SplitFirst(name, "", ':');
  }

  /** What follows a second slash, or a second colon in front of the slash, is ignored. */
  lemma RestIgnored(height: string, name: string, more: string, weight: string, rest: string)
    requires Lacks(height, '/') && Lacks(height, ':') && Lacks(name, '/') && Lacks(name, ':')
    requires Lacks(more, '/') && Lacks(weight, '/')
    ensures ParseWidget(height + ":" + name + ":" + more + "/" + weight + "/" + rest)
         == ParseWidget(height + ":" + name + "/" + weight)
  {
    hide Atoi, ToLower;
    PartsOfWord(height, name, weight);
    PartsAndRest(height, name, more, weight, rest);
    hide Split;
  }

  lemma PartsAndRest(height: string, name: string, more: string, weight: string, rest: string)
    requires Lacks(height, '/') && Lacks(height, ':') && Lacks(name, '/') && Lacks(name, ':')
    requires Lacks(more, '/') && Lacks(weight, '/')
    ensures var left := height + ":" + name + ":" + more;
            var ks, rs := Split(left + "/" + weight + "/" + rest, '/'), Split(left, ':');
            && |ks| > 2 && ks[0] == left && ks[1] == weight && |rs| > 2 && rs[0] == height && rs[1] == name
  {
    var left := height + ":" + name + ":" + more;
    assert left == height + [':'] + (name + [':'] + more);
    SplitFirst(height, name + [':'] + more, ':');
    SplitFirst(name, more, ':');
    assert left + "/" + weight + "/" + rest == left + ['/'] + (weight + ['/'] + rest);
    SplitFirst(left, weight + ['/'] + rest, '/');
    SplitFirst(weight, rest, '/');
  }

  lemma NumberLacks(n: int)
    ensures Lacks(Itoa(n), '/') && Lacks(Itoa(n), ':')
  {
    hide NatToString;
    var s := Itoa(n);
    forall i | 0 <= i < |s|
      ensures IsDigit(s[i]) || s[i] == '-'
    {
    }
  }

  /** The lines that are neither blank nor comments. */
  function RowLines(lines: seq<string>): seq<string> {
    if lines == [] then []
    else RowLines(lines[..|lines| - 1]) + if Skipped(lines[|lines| - 1]) then [] else [lines[|lines| - 1]]
  }

  /** The widgets of a line, as written. */
  function WrittenIn(line: string): seq<Written> {
    ParseWidgets(Fields(TrimSpace(line)))
  }

  /** Each row is what one of these lines says, in order. */
  lemma {:induction false} RowsOfLines(lines: seq<string>, k: nat)
    ensures |ParseLines(lines)| == |RowLines(lines)|
    ensures k < |RowLines(lines)| ==>
              var line := RowLines(lines)[k];
              !Skipped(line) && line in lines && ParseLines(lines)[k] == Normalised(WrittenIn(line))
  {
    hide Skipped, Normalised, ParseWidgets, Fields, TrimSpace;
    if lines != [] {
      RowsOfLines(lines[..|lines| - 1], k);
    }
  }

  lemma WrittenIsPositive(line: string)
    requires !Skipped(line)
    ensures WrittenIn(line) != [] && forall i :: 0 <= i < |WrittenIn(line)| ==> WrittenIn(line)[i].weight >= 1
  {
    ParsedLineCanBePacked(line);
    hide Skipped, TrimSpace, Fields, Divisor, ParseWidget;
  }

  /** From text to screen: however a layout file reads, and however its rows are packed, each block's
      columns share out its width exactly when the weights written in the line of its first row add up
      to no more than 64 bits hold, and the blocks share out the screen exactly when their heights do. */
  lemma ParsedLayoutFillsTheScreen(text: string, plan: seq<L.Turn>, b: nat)
    requires L.IsPlan(ParseLines(Lines(text)), plan) && b < |plan|
    ensures |ParseLines(Lines(text))| == |RowLines(Lines(text))| && plan[b].start < |RowLines(Lines(text))|
    ensures var rows, ws := ParseLines(Lines(text)), WrittenIn(RowLines(Lines(text))[plan[b].start]);
            L.SumReals(L.ColumnWeights(L.BlockOf(rows, plan[b]).columns)) == 1.0 <==> L.Sum(WrittenWeights(ws)) <= MAX_INT
    ensures L.MakeOne(L.Fractions(L.Heights(plan))) <==> L.Sum(L.Heights(plan)) <= MAX_INT
  {
    hide Lines, ParseLines, RowLines, WrittenIn, Normalised, Skipped, WrittenWeights;
    hide L.Packs, L.ColumnWeights, L.Weights, L.Fractions, L.Heights, L.SumReals, L.Sum, L.BlockOf, L.MakeOne;
    var rows := ParseLines(Lines(text));
    RowsOfLines(Lines(text), plan[b].start);
    var line := RowLines(Lines(text))[plan[b].start];
    WrittenIsPositive(line);
    L.ColumnsFillTheBlock(rows, plan[b]);
    SharesAddUpIffTotalFits(WrittenIn(line));
    L.BlocksFillTheScreen(rows, plan);
  }

  // ---------------------------------------------------------------- texts that go wrong

  /** A line with one widget that spans the given number of rows. */
  function TowerLine(h: Int64): string {
    Itoa(h) + ":" + "cpu" + "/" + Itoa(1)
  }

  lemma TowerLineIsWord(h: Int64)
    requires h >= 1
    ensures var line := TowerLine(h);
            IsWord(line) && Lacks(line, '\n') && DropCR(line) == line && IsDigit(line[0])
  {
    NumberIsWord(h);
    NumberIsWord(1);
    hide Itoa;
    var line, last := TowerLine(h), Itoa(1);
    assert line == Itoa(h) + ":cpu/" + last;
    assert line[0] == Itoa(h)[0] && line[|line| - 1] == last[|last| - 1];
    forall i | 0 <= i < |line|
      ensures !IsSpace(line[i])
    {
    }
  }

  lemma NumberIsWord(n: nat)
    ensures Itoa(n) != "" && forall i :: 0 <= i < |Itoa(n)| ==> IsDigit(Itoa(n)[i])
  {
    hide NatToString;
  }

  lemma TowerLineParsed(h: Int64)
    requires h >= 1
    ensures !Skipped(TowerLine(h)) && ParseLine(TowerLine(h)) == [L.WidgetRule("cpu", 1.0, h)]
  {
    var line := TowerLine(h);
    TowerLineIsWord(h);
    TrimSpaceTrims(line);
    WordRead(line, "");
    assert line + "" == line && Fields("") == [];
    NoSlashes();
    FullSyntax(h, "cpu", 1);
    hide TowerLine, TrimSpace, Fields, ParseWidget, IsWord;
    assert TrimSpace(line) == line && Fields(line) == [line];
    assert ParseWidget(line) == Written("cpu", 1, h) by {
      TowerLineIs(h);
    }
    var ws := ParseWidgets([line]);
    assert ws == [Written("cpu", 1, h)];
    OneShare(ws);
  }

  lemma TowerLineIs(h: Int64)
    ensures TowerLine(h) == Itoa(h) + ":" + "cpu" + "/" + Itoa(1)
  {
  }

  lemma NoSlashes()
    ensures Lacks("cpu", '/') && Lacks("cpu", ':') && ToLower("cpu") == "cpu"
  {
  }

  lemma OneShare(ws: seq<Written>)
    requires |ws| == 1 && ws[0].weight == 1
    ensures Normalised(ws) == [L.WidgetRule(ws[0].widget, 1.0, ws[0].height)]
  {
    assert WrittenWeights(ws) == [1] && [1][..0] == [];
    assert WeightTotal([1]) == Wrap(0 + 1) == 1;
  }

  /** Any number of such lines. */
  function TowerText(n: nat, h: Int64): string {
    Unlines(seq(n, _ => TowerLine(h)))
  }

  lemma TowerTextParsed(n: nat, h: Int64)
    requires h >= 1
    ensures ParseLines(Lines(TowerText(n, h))) == seq(n, _ => [L.WidgetRule("cpu", 1.0, h)])
  {
    var lines := seq(n, _ => TowerLine(h));
    TowerLineIsWord(h);
    TowerLineParsed(h);
    hide TowerLine, Skipped, ParseLine;
    LinesOfUnlines(lines);
    assert DropCRs(lines) == lines;
    EqualLines(n, TowerLine(h));
    hide ParseLines;
  }

  lemma {:induction false} EqualLines(n: nat, line: string)
    requires !Skipped(line)
    ensures ParseLines(seq(n, _ => line)) == seq(n, _ => ParseLine(line))
  {
    hide Skipped, ParseLine;
    if n > 0 {
      EqualLines(n - 1, line);
      assert seq(n, _ => line) == seq(n - 1, _ => line) + [line];
      OneMoreLine(seq(n - 1, _ => line), line);
    }
  }

  lemma TowerTextIsTower(n: nat, h: Int64)
    requires h >= 1
    ensures L.IsTower(ParseLines(Lines(TowerText(n, h))), h) && |ParseLines(Lines(TowerText(n, h)))| == n
  {
    TowerTextParsed(n, h);
    hide TowerText, Lines, ParseLines;
  }

  /** Widgets of up to half the largest height get a block each, however many they are; the shares of the
      screen make one exactly if the heights add up in 64 bits, so not for three of 4 * 10^18 rows. */
  lemma HighTextsBreakTheScreen(n: nat, h: Int64)
    requires n >= 1 && 1 <= h && 2 * h <= MAX_INT
    ensures var rows := ParseLines(Lines(TowerText(n, h)));
            && (exists plan: seq<L.Turn> :: L.Complete(rows, plan))
            && (forall plan: seq<L.Turn> :: L.Complete(rows, plan) ==>
                  (L.MakeOne(L.Fractions(L.Heights(plan))) <==> n * h <= MAX_INT))
  {
    hide TowerText, Lines, ParseLines, L.IsTower, L.Complete, L.MakeOne, L.Fractions, L.Heights;
    TowerTextIsTower(n, h);
    L.TowersShareTheScreen(ParseLines(Lines(TowerText(n, h))), h);
  }

  /** Two that are higher than that, of 5 * 10^18 rows say, share a block which is as high as one of them. */
  lemma HighTextsBreakTheBlock(h: Int64)
    requires 2 * h > MAX_INT
    ensures var rows := ParseLines(Lines(TowerText(2, h)));
            && (exists plan: seq<L.Turn> :: L.Complete(rows, plan))
            && (forall plan: seq<L.Turn> :: L.Complete(rows, plan) ==>
                  && |plan| == 1 && L.InRows(rows, plan[0].log)
                  && L.TotalHeight(L.Column(rows, plan[0].log, 0)) == 2 * h > plan[0].height == h)
  {
    hide TowerText, Lines, ParseLines, L.IsTower, L.Complete, L.InRows, L.Column, L.TotalHeight;
    TowerTextIsTower(2, h);
    L.TallTowerOverflows(ParseLines(Lines(TowerText(2, h))), h);
  }

  /** A widget with a weight and no height. */
  lemma WeightSyntax(name: string, weight: Int64)
    requires weight >= 1 && Lacks(name, '/') && Lacks(name, ':')
    ensures ParseWidget(name + "/" + Itoa(weight)) == Written(ToLower(name), weight, 1)
  {
    NumberLacks(weight);
    AtoiItoa(weight);
    hide Itoa, Atoi, ToLower;
    assert name + "/" + Itoa(weight) == name + ['/'] + Itoa(weight);
    SplitFirst(name, Itoa(weight), '/');
    SplitFirst(Itoa(weight), "", '/');
    SplitFirst(name, "", ':');
    hide Split;
  }

  /** Two widgets in a line share the row in proportion to their weights: `disk/2   mem/4` as 2/6 and 4/6. */
  lemma TwoShares(a: string, b: string, m: Int64, n: Int64, gap: string)
    requires m >= 1 && n >= 1 && m + n <= MAX_INT && IsBlank(gap) && gap != ""
    requires IsWord(a) && Lacks(a, '/') && Lacks(a, ':') && IsWord(b) && Lacks(b, '/') && Lacks(b, ':')
    ensures ParseLine(a + "/" + Itoa(m) + gap + (b + "/" + Itoa(n))) ==
              [L.WidgetRule(ToLower(a), m as real / (m + n) as real, 1),
               L.WidgetRule(ToLower(b), n as real / (m + n) as real, 1)]
  {
    hide ParseLine, ParseWidget, Normalised, Fields, Itoa, ToLower, IsWord, IsBlank, Lacks;
    var v, w := a + "/" + Itoa(m), b + "/" + Itoa(n);
    TwoWords(a, b, m, n, gap);
    WeightSyntax(a, m);
    WeightSyntax(b, n);
    ParseTwo(v + gap + w, v, w);
    NormalisedTwo(Written(ToLower(a), m, 1), Written(ToLower(b), n, 1));
  }

  lemma ParseTwo(line: string, v: string, w: string)
    requires Fields(line) == [v, w]
    ensures ParseLine(line) == Normalised([ParseWidget(v), ParseWidget(w)])
  {
    FieldsOfTrimmed(line);
    hide ParseWidget, Fields, TrimSpace, Normalised;
    assert ParseWidgets([v, w]) == [ParseWidget(v), ParseWidget(w)];
  }

  lemma NormalisedTwo(v: Written, w: Written)
    requires v.weight >= 1 && w.weight >= 1 && v.weight + w.weight <= MAX_INT
    ensures Normalised([v, w]) ==
              [L.WidgetRule(v.widget, v.weight as real / (v.weight + w.weight) as real, v.height),
               L.WidgetRule(w.widget, w.weight as real / (v.weight + w.weight) as real, w.height)]
  {
    TotalOfTwo([v, w]);
    hide WeightTotal, WrittenWeights;
  }

  lemma TwoWords(a: string, b: string, m: nat, n: nat, gap: string)
    requires IsWord(a) && IsWord(b) && IsBlank(gap) && gap != ""
    ensures var v, w := a + "/" + Itoa(m), b + "/" + Itoa(n); Fields(v + gap + w) == [v, w]
  {
    NumberIsWord(m);
    NumberIsWord(n);
    hide Itoa;
    var v, w := a + "/" + Itoa(m), b + "/" + Itoa(n);
    assert IsWord(v) && IsWord(w);
    hide Fields;
    WordRead(v, gap + w);
    BlanksSkipped(gap, w);
    WordRead(w, "");
    NoFields();
    assert v + gap + w == v + (gap + w) && w + "" == w;
  }

  lemma NoFields()
    ensures Fields("") == []
  {
  }

  lemma TotalOfTwo(ws: seq<Written>)
    requires |ws| == 2 && ws[0].weight >= 1 && ws[1].weight >= 1 && ws[0].weight + ws[1].weight <= MAX_INT
    ensures WeightTotal(WrittenWeights(ws)) == ws[0].weight + ws[1].weight
  {
    var ns := WrittenWeights(ws);
    assert ns[..1] == [ws[0].weight as int] && [ws[0].weight as int][..0] == [];
    WrapTwice(ws[0].weight, 0);
    WrapTwice(ws[0].weight + ws[1].weight, 0);
    hide Wrap;
    assert WeightTotal(ns[..1]) == Wrap(0 + ws[0].weight);
  }
}
