/** The configuration file of config.go: `marshal` prints it, `load` reads it back. */
module Config {
  import opened GoInt
  import opened Text

  // ---------------------------------------------------------------- the keys

  datatype Key =
    | GraphHorizontalScale | HelpVisible | Colorscheme | UpdateInterval | AverageCpu | PercpuLoad
    | TempScale | Statusbar | NetInterface | LayoutName | MaxLogSize | Export | Mbps | Temperatures
    | Nvidia | NvidiaRefresh | Deprecated | Extension

  function KeyOf(name: string): Key {
    if name == "configdir" || name == "logdir" || name == "logfile" then Deprecated
    else if name == "graphhorizontalscale" then GraphHorizontalScale
    else if name == "helpvisible" then HelpVisible
    else if name == "colorscheme" then Colorscheme
    else if name == "updateinterval" then UpdateInterval
    else if name == "averagecpu" then AverageCpu
    else if name == "percpuload" then PercpuLoad
    else if name == "tempscale" then TempScale
    else if name == "statusbar" then Statusbar
    else if name == "netinterface" then NetInterface
    else if name == "layout" then LayoutName
    else if name == "maxlogsize" then MaxLogSize
    else if name == "metricsexportport" then Export
    else if name == "mbps" then Mbps
    else if name == "temperatures" then Temperatures
    else if name == "nvidia" then Nvidia
    else if name == "nvidiarefresh" then NvidiaRefresh
    else Extension
  }

  predicate IsPrinted(key: Key) {
    !key.NvidiaRefresh? && !key.Deprecated? && !key.Extension?
  }

  function NameOf(key: Key): string
    requires IsPrinted(key)
  {
    match key
    case GraphHorizontalScale => "graphhorizontalscale"
    case HelpVisible => "helpvisible"
    case Colorscheme => "colorscheme"
    case UpdateInterval => "updateinterval"
    case AverageCpu => "averagecpu"
    case PercpuLoad => "percpuload"
    case TempScale => "tempscale"
    case Statusbar => "statusbar"
    case NetInterface => "netinterface"
    case LayoutName => "layout"
    case MaxLogSize => "maxlogsize"
    case Export => "metricsexportport"
    case Mbps => "mbps"
    case Temperatures => "temperatures"
    case Nvidia => "nvidia"
  }

  predicate LowerCase(s: string) {
    forall i :: 0 <= i < |s| ==> 'a' <= s[i] <= 'z'
  }

  lemma NamesAreLowerCase(key: Key)
    requires IsPrinted(key)
    ensures NameOf(key) != "" && LowerCase(NameOf(key))
  {
    hide LowerCase;
    SomeNamesAreLowerCase();
    OtherNamesAreLowerCase();
  }

  lemma SomeNamesAreLowerCase()
    ensures LowerCase("graphhorizontalscale")
    ensures LowerCase("helpvisible")
    ensures LowerCase("colorscheme")
    ensures LowerCase("updateinterval")
    ensures LowerCase("averagecpu")
    ensures LowerCase("percpuload")
    ensures LowerCase("tempscale")
    ensures LowerCase("statusbar")
  {
  }

  lemma OtherNamesAreLowerCase()
    ensures LowerCase("netinterface")
    ensures LowerCase("layout")
    ensures LowerCase("maxlogsize")
    ensures LowerCase("metricsexportport")
    ensures LowerCase("mbps")
    ensures LowerCase("temperatures")
    ensures LowerCase("nvidia")
  {
  }

  lemma NamesAreDistinct(key: Key)
    requires IsPrinted(key)
    ensures KeyOf(NameOf(key)) == key
  {
    hide KeyOf;
    EarlyNamesAreDistinct();
    MiddleNamesAreDistinct();
    LateNamesAreDistinct();
    LastNamesAreDistinct();
  }

  lemma EarlyNamesAreDistinct()
    ensures KeyOf("graphhorizontalscale") == GraphHorizontalScale
    ensures KeyOf("helpvisible") == HelpVisible
    ensures KeyOf("colorscheme") == Colorscheme
    ensures KeyOf("updateinterval") == UpdateInterval
    ensures KeyOf("averagecpu") == AverageCpu
  {
  }

  lemma MiddleNamesAreDistinct()
    ensures KeyOf("percpuload") == PercpuLoad
    ensures KeyOf("tempscale") == TempScale
    ensures KeyOf("statusbar") == Statusbar
    ensures KeyOf("netinterface") == NetInterface
    ensures KeyOf("layout") == LayoutName
  {
  }

  lemma LateNamesAreDistinct()
    ensures KeyOf("maxlogsize") == MaxLogSize
    ensures KeyOf("metricsexportport") == Export
    ensures KeyOf("mbps") == Mbps
  {
  }

  lemma LastNamesAreDistinct()
    ensures KeyOf("temperatures") == Temperatures
    ensures KeyOf("nvidia") == Nvidia
  {
  }

  lemma LowerCaseStays(s: string)
    requires LowerCase(s)
    ensures ToLower(s) == s && Lacks(s, '=') && Lacks(s, '\n')
  {
  }

  // ---------------------------------------------------------------- the settings

  /** A colour scheme; its contents are beside the point. */
  datatype Scheme = Scheme(name: string, contents: seq<int>)

  datatype Settings = Settings(
    graphHorizontalScale: Int64, helpVisible: bool, colorscheme: Scheme, updateInterval: Int64, averageLoad: bool,
    percpuLoad: bool, statusbar: bool, tempScale: char, netInterface: string, layout: string, maxLogSize: Int64,
    exportPort: string, mbps: bool, temps: seq<string>, extensionVars: map<string, string>, nvidia: bool,
    nvidiaRefresh: int)

  /** The colour schemes that can be found by name, and the durations that can be parsed. */
  datatype World = World(schemes: map<string, Scheme>, durations: map<string, int>)

  /** `colorschemes.FromName`: no name means the default one. */
  function FromName(w: World, name: string): Option<Scheme> {
    var key := if name == "" then "default" else name;
    if key in w.schemes then Some(w.schemes[key]) else None
  }

  /** Loading goes on, stops with an error, or panics on a blank line. */
  datatype Outcome = Fine(s: Settings) | Error(s: Settings) | Panic(s: Settings)

  /** What a line with the key sets. */
  function Assign(w: World, s: Settings, key: Key, name: string, value: string): Outcome {
    match key
    case Extension => Fine(s.(extensionVars := s.extensionVars[name := value]))
    case Deprecated => Fine(s)
    case GraphHorizontalScale =>
      (match Atoi(value) case Some(iv) => Fine(s.(graphHorizontalScale := iv)) case None => Error(s))
    case HelpVisible => (match ParseBool(value) case Some(bv) => Fine(s.(helpVisible := bv)) case None => Error(s))
    case Colorscheme => (match FromName(w, value) case Some(cs) => Fine(s.(colorscheme := cs)) case None => Error(s))
    case UpdateInterval => (match Atoi(value) case Some(iv) => Fine(s.(updateInterval := iv)) case None => Error(s))
    case AverageCpu => (match ParseBool(value) case Some(bv) => Fine(s.(averageLoad := bv)) case None => Error(s))
    case PercpuLoad => (match ParseBool(value) case Some(bv) => Fine(s.(percpuLoad := bv)) case None => Error(s))
    case TempScale =>
      if value == "C" then Fine(s.(tempScale := 'C'))
      else if value == "F" then Fine(s.(tempScale := 'F'))
      else Error(s.(tempScale := 'C'))
    case Statusbar => (match ParseBool(value) case Some(bv) => Fine(s.(statusbar := bv)) case None => Error(s))
    case NetInterface => Fine(s.(netInterface := value))
    case LayoutName => Fine(s.(layout := value))
    case MaxLogSize => (match Atoi(value) case Some(iv) => Fine(s.(maxLogSize := iv)) case None => Error(s))
    case Export => Fine(s.(exportPort := value))
    case Mbps => Fine(s.(mbps := true))
    case Temperatures => Fine(s.(temps := Split(value, ',')))
    case Nvidia => (match ParseBool(value) case Some(nv) => Fine(s.(nvidia := nv)) case None => Error(s))
    case NvidiaRefresh => if value in w.durations then Fine(s.(nvidiaRefresh := w.durations[value])) else Error(s)
  }

  function LoadLine(w: World, s: Settings, line: string): Outcome {
    var l := TrimSpace(line);
    if l == "" then Panic(s)
    else if l[0] == '#' then Fine(s)
    else
      var kv := Split(l, '=');
      if |kv| != 2 then Error(s) else Assign(w, s, KeyOf(ToLower(kv[0])), ToLower(kv[0]), kv[1])
  }

  function LoadLines(w: World, s: Settings, lines: seq<string>): Outcome
    decreases |lines|
  {
    if lines == [] then Fine(s)
    else
      var first := LoadLine(w, s, lines[0]);
      if first.Fine? then LoadLines(w, first.s, lines[1..]) else first
  }

  function LoadText(w: World, s: Settings, text: string): Outcome {
    LoadLines(w, s, Lines(text))
  }

  // ---------------------------------------------------------------- the printed file

  /** The wording of the comment lines above each setting, and of those that end the file. */
  type Notes = Key -> seq<string>

  predicate IsComment(line: string) {
    line != "" && line[0] == '#' && Lacks(line, '\n')
  }

  predicate AllComments(lines: seq<string>) {
    forall i :: 0 <= i < |lines| ==> IsComment(lines[i])
  }

  ghost predicate Proper(notes: Notes) {
    forall key :: AllComments(notes(key))
  }

  /** A setting as printed: some comment lines, then the key and value, commented out if there is no value. */
  datatype Entry = Entry(comments: seq<string>, visible: bool, key: Key, value: string)

  function Line(e: Entry): string
    requires IsPrinted(e.key)
  {
    (if e.visible then "" else "#") + NameOf(e.key) + "=" + e.value
  }

  predicate AllPrinted(es: seq<Entry>) {
    forall i :: 0 <= i < |es| ==> IsPrinted(es[i].key)
  }

  function FileLines(es: seq<Entry>, end: seq<string>): seq<string>
    requires AllPrinted(es)
  {
    if es == [] then end else es[0].comments + [Line(es[0])] + FileLines(es[1..], end)
  }

  function GraphEntries(c: Settings, notes: Notes): (es: seq<Entry>)
    ensures |es| == 5 && AllPrinted(es)
  {
    [
      Entry(notes(GraphHorizontalScale), true, GraphHorizontalScale, Itoa(c.graphHorizontalScale)),
      Entry(notes(HelpVisible), true, HelpVisible, FormatBool(c.helpVisible)),
      Entry(notes(Colorscheme), true, Colorscheme, c.colorscheme.name),
      Entry(notes(UpdateInterval), true, UpdateInterval, Itoa(c.updateInterval)),
      Entry(notes(AverageCpu), true, AverageCpu, FormatBool(c.averageLoad))
    ]
  }

  function DisplayEntries(c: Settings, notes: Notes): (es: seq<Entry>)
    ensures |es| == 5 && AllPrinted(es)
  {
    [
      Entry(notes(PercpuLoad), true, PercpuLoad, FormatBool(c.percpuLoad)),
      Entry(notes(TempScale), true, TempScale, [c.tempScale]),
      Entry(notes(Statusbar), true, Statusbar, FormatBool(c.statusbar)),
      Entry(notes(NetInterface), true, NetInterface, c.netInterface),
      Entry(notes(LayoutName), true, LayoutName, c.layout)
    ]
  }

  function SystemEntries(c: Settings, notes: Notes): (es: seq<Entry>)
    ensures |es| == 5 && AllPrinted(es)
  {
    [
      Entry(notes(MaxLogSize), true, MaxLogSize, Itoa(c.maxLogSize)),
      Entry(notes(Export), c.exportPort != "", Export, c.exportPort),
      Entry(notes(Mbps), true, Mbps, FormatBool(c.mbps)),
      Entry(notes(Temperatures), c.temps != [], Temperatures, Join(c.temps, ',')),
      Entry(notes(Nvidia), true, Nvidia, FormatBool(c.nvidia))
    ]
  }

  function Entries(c: Settings, notes: Notes): (es: seq<Entry>)
    ensures AllPrinted(es)
  {
    GraphEntries(c, notes) + DisplayEntries(c, notes) + SystemEntries(c, notes)
  }

  /** What `marshal` writes. */
  function Marshalled(c: Settings, notes: Notes): string {
    Unlines(FileLines(Entries(c, notes), notes(NvidiaRefresh)))
  }

  // ---------------------------------------------------------------- which settings survive

  /** A value that fits behind the equals sign of a single line. */
  predicate TextOk(v: string) {
    Lacks(v, '=') && Lacks(v, '\n') && (v == "" || !IsSpace(v[|v| - 1]))
  }

  predicate TempsOk(temps: seq<string>) {
    TextOk(Join(temps, ',')) && forall i :: 0 <= i < |temps| ==> Lacks(temps[i], ',')
  }

  /** Settings that can be printed: texts of a single line without equals signs or trailing blanks,
      sensors without commas, a known temperature scale, and a scheme with a name of a single line. */
  predicate Printable(c: Settings) {
    && TextOk(c.netInterface) && TextOk(c.layout) && TextOk(c.exportPort) && TempsOk(c.temps)
    && (c.tempScale == 'C' || c.tempScale == 'F') && Lacks(c.colorscheme.name, '\n')
  }

  /** The scheme that a printed name stands for when it is read: blanks behind it are not, and a line with
      another equals sign is none. */
  function SchemeRead(w: World, name: string): Option<Scheme> {
    if Lacks(name, '=') then FromName(w, TrimRight(name)) else None
  }

  /** Is the scheme found under the name it carries? Custom schemes need not carry the name of their file. */
  predicate GoesByItsName(w: World, scheme: Scheme) {
    SchemeRead(w, scheme.name) == Some(scheme)
  }

  predicate Clean(w: World, c: Settings) {
    Printable(c) && GoesByItsName(w, c.colorscheme)
  }

  /** The name that a scheme carries, whatever it is, is on a single line. */
  predicate SchemeNamesOk(w: World) {
    forall name :: name in w.schemes ==> Lacks(w.schemes[name].name, '\n')
  }

  /** What reading back should give: all that was printed, what was there before where nothing was,
      and `mbps` switched on whatever was printed. */
  function Restored(c: Settings, s: Settings): Settings {
    c.(exportPort := if c.exportPort == "" then s.exportPort else c.exportPort,
       temps := if c.temps == [] then s.temps else c.temps,
       mbps := true, extensionVars := s.extensionVars, nvidiaRefresh := s.nvidiaRefresh)
  }

  // ---------------------------------------------------------------- reading one line

  lemma CommentIgnored(w: World, s: Settings, line: string)
    requires IsComment(line)
    ensures LoadLine(w, s, DropCR(line)) == Fine(s)
  {
    TrimIgnoresCR(line);
    CommentTrims(line);
    hide TrimSpace;
  }

  lemma CommentTrims(line: string)
    requires line != "" && line[0] == '#'
    ensures TrimSpace(line) != "" && TrimSpace(line)[0] == '#'
  {
    assert TrimLeft(line) == line;
    TrimRightKeepsFirst(line);
  }

  lemma {:induction false} TrimRightKeepsFirst(s: string)
    requires s != "" && !IsSpace(s[0])
    ensures TrimRight(s) != "" && TrimRight(s)[0] == s[0]
  {
    if IsSpace(s[|s| - 1]) {
      TrimRightKeepsFirst(s[..|s| - 1]);
    }
  }

  /** Blanks at the end of a value are trimmed with its line. */
  lemma {:induction false} ValueTrimmed(name: string, value: string)
    requires name != "" && !IsSpace(name[0])
    ensures TrimSpace(name + "=" + value) == name + "=" + TrimRight(value)
    ensures Lacks(value, '=') <==> Lacks(TrimRight(value), '=')
  {
    var line := name + "=" + value;
    if value != "" && IsSpace(value[|value| - 1]) {
      var front, last := value[..|value| - 1], value[|value| - 1];
      ValueTrimmed(name, front);
      assert line == (name + "=" + front) + [last];
      TrimBeforeSpace(name + "=" + front, last);
      assert value == front + [last];
    } else {
      assert line[0] == name[0] && (value == "" || line[|line| - 1] == value[|value| - 1]);
      TrimSpaceTrims(line);
    }
  }

  /** What a reader does with a printed line: nothing if there is another equals sign in it. */
  function Act(w: World, s: Settings, e: Entry): Outcome
    requires IsPrinted(e.key)
  {
    if Lacks(e.value, '=') then Assign(w, s, e.key, NameOf(e.key), TrimRight(e.value)) else Error(s)
  }

  lemma ActOnText(w: World, s: Settings, e: Entry)
    requires IsPrinted(e.key) && TextOk(e.value)
    ensures Act(w, s, e) == Assign(w, s, e.key, NameOf(e.key), e.value)
  {
    assert TrimRight(e.value) == e.value;
    hide Assign, NameOf, TrimRight;
  }

  lemma OnePart(parts: seq<string>, sep: char)
    ensures |parts| == 1 ==> Join(parts, sep) == parts[0]
  {
  }

  lemma PartsOfLine(name: string, value: string)
    requires Lacks(name, '=')
    ensures name + "=" + value == name + ['='] + value
    ensures Lacks(value, '=') ==> Split(name + "=" + value, '=') == [name, value]
    ensures !Lacks(value, '=') ==> |Split(name + "=" + value, '=')| > 2
  {
    SplitFirst(name, value, '=');
    if Lacks(value, '=') {
      SplitFirst(value, "", '=');
    } else {
      SplitParts(value, '=');
      OnePart(Split(value, '='), '=');
      hide Split;
    }
  }

  lemma EntryRead(w: World, s: Settings, e: Entry)
    requires IsPrinted(e.key) && e.visible && Lacks(e.value, '\n')
    ensures LoadLine(w, s, DropCR(Line(e))) == Act(w, s, e)
    ensures Lacks(Line(e), '\n')
  {
    hide NameOf, KeyOf, Assign, TrimSpace, TrimRight, Split, ToLower, LowerCase;
    var name, line := NameOf(e.key), NameOf(e.key) + "=" + e.value;
    assert Line(e) == line;
    NamesAreLowerCase(e.key);
    NamesAreDistinct(e.key);
    LowerCaseStays(name);
    LetterIsPlain(name);
    ValueTrimmed(name, e.value);
    PartsOfLine(name, TrimRight(e.value));
    TrimIgnoresCR(line);
    assert TrimSpace(line)[0] == name[0];
  }

  lemma LetterIsPlain(name: string)
    requires name != "" && LowerCase(name)
    ensures name[0] != '#' && !IsSpace(name[0])
  {
  }

  lemma HiddenEntryIsComment(e: Entry)
    requires IsPrinted(e.key) && !e.visible && Lacks(e.value, '\n')
    ensures IsComment(Line(e))
  {
    NamesAreLowerCase(e.key);
    LowerCaseStays(NameOf(e.key));
    hide NameOf;
  }

  /** The entries a reader acts on, one after the other. */
  function AssignAll(w: World, s: Settings, es: seq<Entry>): Outcome
    requires AllPrinted(es)
    decreases |es|
  {
    if es == [] then Fine(s)
    else if !es[0].visible then AssignAll(w, s, es[1..])
    else
      var first := Act(w, s, es[0]);
      if first.Fine? then AssignAll(w, first.s, es[1..]) else first
  }

  predicate ReadableEntry(e: Entry) {
    IsPrinted(e.key) && Lacks(e.value, '\n') && AllComments(e.comments)
  }

  predicate Readable(es: seq<Entry>) {
    forall i :: 0 <= i < |es| ==> ReadableEntry(es[i])
  }

  lemma {:induction false} CommentsSkipped(w: World, s: Settings, comments: seq<string>, rest: seq<string>)
    requires AllComments(comments)
    ensures LoadLines(w, s, DropCRs(comments + rest)) == LoadLines(w, s, DropCRs(rest))
  {
    hide LoadLine;
    if comments == [] {
      assert comments + rest == rest;
    } else {
      CommentIgnored(w, s, comments[0]);
      CommentsSkipped(w, s, comments[1..], rest);
      assert DropCRs(comments + rest)[1..] == DropCRs(comments[1..] + rest);
    }
  }

  /** Reading a printed file is acting on its entries. */
  lemma {:induction false} FileRead(w: World, s: Settings, es: seq<Entry>, end: seq<string>)
    requires Readable(es) && AllComments(end)
    ensures LoadLines(w, s, DropCRs(FileLines(es, end))) == AssignAll(w, s, es)
    ensures AllLines(FileLines(es, end))
    decreases |es|
  {
    hide Act, Lacks, NameOf, LoadLine;
    if es == [] {
      CommentsSkipped(w, s, end, []);
      assert end + [] == end;
    } else {
      var e, rest := es[0], FileLines(es[1..], end);
      assert FileLines(es, end) == e.comments + ([Line(e)] + rest);
      CommentsSkipped(w, s, e.comments, [Line(e)] + rest);
      assert DropCRs([Line(e)] + rest)[1..] == DropCRs(rest);
      if e.visible {
        EntryRead(w, s, e);
        var first := Act(w, s, e);
        FileRead(w, first.s, es[1..], end);
      } else {
        HiddenEntryIsComment(e);
        CommentIgnored(w, s, Line(e));
        FileRead(w, s, es[1..], end);
      }
    }
  }

  // ---------------------------------------------------------------- the round trip

  lemma EntriesReadable(c: Settings, notes: Notes)
    requires Printable(c) && Proper(notes)
    ensures Readable(Entries(c, notes))
  {
    hide AllComments, Proper, Readable;
    GraphEntriesReadable(c, notes);
    DisplayEntriesReadable(c, notes);
    SystemEntriesReadable(c, notes);
    hide GraphEntries, DisplayEntries, SystemEntries;
    BothReadable(GraphEntries(c, notes), DisplayEntries(c, notes));
    BothReadable(GraphEntries(c, notes) + DisplayEntries(c, notes), SystemEntries(c, notes));
  }

  lemma BothReadable(es: seq<Entry>, more: seq<Entry>)
    requires Readable(es) && Readable(more)
    ensures Readable(es + more)
  {
    hide ReadableEntry;
  }

  lemma GraphEntriesReadable(c: Settings, notes: Notes)
    requires Printable(c) && Proper(notes)
    ensures Readable(GraphEntries(c, notes))
  {
    NumbersAreText(c.graphHorizontalScale);
    NumbersAreText(c.updateInterval);
    BoolsAreText();
    hide Itoa, FormatBool, Lacks, IsSpace, Join, AllComments;
  }

  lemma DisplayEntriesReadable(c: Settings, notes: Notes)
    requires Printable(c) && Proper(notes)
    ensures Readable(DisplayEntries(c, notes))
  {
    BoolsAreText();
    CharIsText(c.tempScale);
    hide Itoa, FormatBool, Lacks, IsSpace, Join, AllComments;
  }

  lemma SystemEntriesReadable(c: Settings, notes: Notes)
    requires Printable(c) && Proper(notes)
    ensures Readable(SystemEntries(c, notes))
  {
    NumbersAreText(c.maxLogSize);
    BoolsAreText();
    hide Itoa, FormatBool, Lacks, IsSpace, Join, AllComments;
  }

  lemma CharIsText(c: char)
    requires c == 'C' || c == 'F'
    ensures TextOk([c])
  {
  }

  lemma NumbersAreText(n: int)
    ensures TextOk(Itoa(n))
  {
    hide NatToString;
    var s := Itoa(n);
    forall i | 0 <= i < |s|
      ensures IsDigit(s[i]) || s[i] == '-'
    {
    }
  }

  lemma BoolsAreText()
    ensures forall b :: TextOk(FormatBool(b)) && ParseBool(FormatBool(b)) == Some(b)
  {
  }

  lemma {:induction false} AssignAllAppend(w: World, s: Settings, es: seq<Entry>, more: seq<Entry>)
    requires AllPrinted(es) && AllPrinted(more)
    ensures var first := AssignAll(w, s, es);
            AssignAll(w, s, es + more) == if first.Fine? then AssignAll(w, first.s, more) else first
    decreases |es|
  {
    hide Act;
    if es == [] {
      assert es + more == more;
    } else {
      assert (es + more)[1..] == es[1..] + more;
      if es[0].visible {
        AssignAllAppend(w, Act(w, s, es[0]).s, es[1..], more);
      } else {
        AssignAllAppend(w, s, es[1..], more);
      }
    }
  }

  function Then(w: World, o: Outcome, e: Entry): Outcome
    requires IsPrinted(e.key)
  {
    if o.Fine? && e.visible then Act(w, o.s, e) else o
  }

  function Continue(w: World, o: Outcome, es: seq<Entry>): Outcome
    requires AllPrinted(es)
  {
    if o.Fine? then AssignAll(w, o.s, es) else o
  }

  lemma OneEntry(w: World, o: Outcome, es: seq<Entry>, k: nat)
    requires AllPrinted(es) && k < |es|
    ensures Continue(w, o, es[k..]) == Continue(w, Then(w, o, es[k]), es[k + 1..])
  {
    hide Act;
    assert es[k..][1..] == es[k + 1..];
  }

  /** Five entries, one after the other. */
  lemma AssignFive(w: World, s: Settings, es: seq<Entry>)
    requires AllPrinted(es) && |es| == 5
    ensures AssignAll(w, s, es) == Then(w, Then(w, Then(w, Then(w, Then(w, Fine(s), es[0]), es[1]), es[2]), es[3]), es[4])
  {
    assert es[0..] == es && es[5..] == [];
    var o1 := Then(w, Fine(s), es[0]);
    var o2 := Then(w, o1, es[1]);
    var o3 := Then(w, o2, es[2]);
    var o4 := Then(w, o3, es[3]);
    hide Then;
    OneEntry(w, Fine(s), es, 0);
    OneEntry(w, o1, es, 1);
    OneEntry(w, o2, es, 2);
    OneEntry(w, o3, es, 3);
    OneEntry(w, o4, es, 4);
  }

  lemma GraphEntriesAssign(w: World, s: Settings, c: Settings, notes: Notes)
    ensures AssignAll(w, s, GraphEntries(c, notes)) ==
              match SchemeRead(w, c.colorscheme.name)
              case None => Error(s.(graphHorizontalScale := c.graphHorizontalScale, helpVisible := c.helpVisible))
              case Some(found) =>
                Fine(s.(graphHorizontalScale := c.graphHorizontalScale, helpVisible := c.helpVisible,
                        colorscheme := found, updateInterval := c.updateInterval, averageLoad := c.averageLoad))
  {
    var es := GraphEntries(c, notes);
    var s1 := s.(graphHorizontalScale := c.graphHorizontalScale);
    var s2 := s1.(helpVisible := c.helpVisible);
    hide Then, Itoa, FormatBool, SchemeRead;
    ThenNumber(w, s, es[0], c.graphHorizontalScale);
    ThenFlag(w, s1, es[1], c.helpVisible);
    ThenColorscheme(w, s2, es[2]);
    match SchemeRead(w, c.colorscheme.name)
    case None =>
      ThenNothing(w, s2, es[3]);
      ThenNothing(w, s2, es[4]);
      AssignFive(w, s, es);
    case Some(found) =>
      var s3 := s2.(colorscheme := found);
      var s4 := s3.(updateInterval := c.updateInterval);
      ThenNumber(w, s3, es[3], c.updateInterval);
      ThenFlag(w, s4, es[4], c.averageLoad);
      AssignFive(w, s, es);
  }

  lemma DisplayEntriesAssign(w: World, s: Settings, c: Settings, notes: Notes)
    requires TextOk(c.netInterface) && TextOk(c.layout) && (c.tempScale == 'C' || c.tempScale == 'F')
    ensures AssignAll(w, s, DisplayEntries(c, notes)) ==
              Fine(s.(percpuLoad := c.percpuLoad, tempScale := c.tempScale, statusbar := c.statusbar,
                      netInterface := c.netInterface, layout := c.layout))
  {
    var es := DisplayEntries(c, notes);
    var s1 := s.(percpuLoad := c.percpuLoad);
    var s2 := s1.(tempScale := c.tempScale);
    var s3 := s2.(statusbar := c.statusbar);
    var s4 := s3.(netInterface := c.netInterface);
    hide Then, FormatBool, TextOk;
    ThenFlag(w, s, es[0], c.percpuLoad);
    ThenTempScale(w, s1, es[1], c.tempScale);
    ThenFlag(w, s2, es[2], c.statusbar);
    ThenText(w, s3, es[3]);
    ThenText(w, s4, es[4]);
    hide DisplayEntries;
    AssignFive(w, s, es);
  }

  lemma ThenFlag(w: World, s: Settings, e: Entry, b: bool)
    requires e.key in {HelpVisible, AverageCpu, PercpuLoad, Statusbar, Nvidia} && e.visible && e.value == FormatBool(b)
    ensures Then(w, Fine(s), e) == Fine(match e.key
                                        case HelpVisible => s.(helpVisible := b)
                                        case AverageCpu => s.(averageLoad := b)
                                        case PercpuLoad => s.(percpuLoad := b)
                                        case Statusbar => s.(statusbar := b)
                                        case _ => s.(nvidia := b))
  {
    BoolsAreText();
    ActOnText(w, s, e);
    hide FormatBool, ParseBool, Act, TextOk;
  }

  lemma ThenText(w: World, s: Settings, e: Entry)
    requires e.key in {NetInterface, LayoutName} && e.visible && TextOk(e.value)
    ensures Then(w, Fine(s), e) ==
              Fine(if e.key.NetInterface? then s.(netInterface := e.value) else s.(layout := e.value))
  {
    ActOnText(w, s, e);
    hide Act, TextOk;
  }

  lemma ThenTempScale(w: World, s: Settings, e: Entry, scale: char)
    requires e.key.TempScale? && e.visible && e.value == [scale] && (scale == 'C' || scale == 'F')
    ensures Then(w, Fine(s), e) == Fine(s.(tempScale := scale))
  {
    assert [scale] == "C" || [scale] == "F";
    CharIsText(scale);
    ActOnText(w, s, e);
    hide Act, TextOk;
  }

  lemma SystemEntriesAssign(w: World, s: Settings, c: Settings, notes: Notes)
    requires TempsOk(c.temps) && TextOk(c.exportPort)
    ensures AssignAll(w, s, SystemEntries(c, notes)) ==
              Fine(s.(maxLogSize := c.maxLogSize, exportPort := if c.exportPort == "" then s.exportPort else c.exportPort,
                      mbps := true, temps := if c.temps == [] then s.temps else c.temps, nvidia := c.nvidia))
  {
    var es := SystemEntries(c, notes);
    var s1 := s.(maxLogSize := c.maxLogSize);
    var s2 := s1.(exportPort := if c.exportPort == "" then s.exportPort else c.exportPort);
    var s3 := s2.(mbps := true);
    var s4 := s3.(temps := if c.temps == [] then s.temps else c.temps);
    var s5 := s4.(nvidia := c.nvidia);
    hide Then, Join, Itoa, FormatBool, TextOk;
    BoolsAreText();
    ThenNumber(w, s, es[0], c.maxLogSize);
    ThenExport(w, s1, es[1], c.exportPort);
    ThenMbps(w, s2, es[2]);
    ThenTemps(w, s3, es[3], c.temps);
    ThenFlag(w, s4, es[4], c.nvidia);
    hide SystemEntries;
    AssignFive(w, s, es);
  }

  lemma ThenNumber(w: World, s: Settings, e: Entry, n: Int64)
    requires e.key in {GraphHorizontalScale, UpdateInterval, MaxLogSize} && e.visible && e.value == Itoa(n)
    ensures Then(w, Fine(s), e) == Fine(match e.key
                                        case GraphHorizontalScale => s.(graphHorizontalScale := n)
                                        case UpdateInterval => s.(updateInterval := n)
                                        case _ => s.(maxLogSize := n))
  {
    AtoiItoa(n);
    NumbersAreText(n);
    ActOnText(w, s, e);
    hide Itoa, Atoi, Act, TextOk;
  }

  lemma ThenColorscheme(w: World, s: Settings, e: Entry)
    requires e.key.Colorscheme? && e.visible
    ensures Then(w, Fine(s), e) ==
              match SchemeRead(w, e.value) case None => Error(s) case Some(found) => Fine(s.(colorscheme := found))
  {
    hide FromName, TrimRight, Lacks;
  }

  lemma ThenNothing(w: World, s: Settings, e: Entry)
    requires IsPrinted(e.key)
    ensures Then(w, Error(s), e) == Error(s)
  {
  }

  lemma ThenExport(w: World, s: Settings, e: Entry, port: string)
    requires e.key.Export? && e.visible == (port != "") && e.value == port && TextOk(port)
    ensures Then(w, Fine(s), e) == Fine(s.(exportPort := if port == "" then s.exportPort else port))
  {
    ActOnText(w, s, e);
    hide Act, TextOk;
  }

  lemma ThenMbps(w: World, s: Settings, e: Entry)
    requires e.key.Mbps? && e.visible && TextOk(e.value)
    ensures Then(w, Fine(s), e) == Fine(s.(mbps := true))
  {
    ActOnText(w, s, e);
    hide Act, TextOk;
  }

  lemma ThenTemps(w: World, s: Settings, e: Entry, temps: seq<string>)
    requires TempsOk(temps) && e.key.Temperatures? && e.visible == (temps != []) && e.value == Join(temps, ',')
    ensures Then(w, Fine(s), e) == Fine(s.(temps := if temps == [] then s.temps else temps))
  {
    if temps != [] {
      SplitJoin(temps, ',');
    }
    ActOnText(w, s, e);
    hide Split, Join, Act, TextOk;
  }

  /** Whatever was set before, reading the printed file of printable settings stops early only if no scheme
      is read under the printed name; else it restores everything that can be restored, with that scheme. */
  lemma PrintedIsRead(w: World, s: Settings, c: Settings, notes: Notes)
    requires Printable(c) && Proper(notes)
    ensures match SchemeRead(w, c.colorscheme.name)
            case None => LoadText(w, s, Marshalled(c, notes)).Error?
            case Some(found) => LoadText(w, s, Marshalled(c, notes)) == Fine(Restored(c, s).(colorscheme := found))
  {
    var g, d, y := GraphEntries(c, notes), DisplayEntries(c, notes), SystemEntries(c, notes);
    EntriesReadable(c, notes);
    FileRead(w, s, Entries(c, notes), notes(NvidiaRefresh));
    LinesOfUnlines(FileLines(Entries(c, notes), notes(NvidiaRefresh)));
    AssignAllAppend(w, s, g + d, y);
    AssignAllAppend(w, s, g, d);
    hide GraphEntries, DisplayEntries, SystemEntries, AssignAll, LoadLines, FileLines, Readable, TextOk, TempsOk, SchemeRead;
    GraphEntriesAssign(w, s, c, notes);
    if SchemeRead(w, c.colorscheme.name).Some? {
      var s1 := AssignAll(w, s, g).s;
      DisplayEntriesAssign(w, s1, c, notes);
      SystemEntriesAssign(w, AssignAll(w, s1, d).s, c, notes);
    }
  }

  /** Reading clean settings never fails, and restores everything that can be restored. */
  lemma RoundTrip(w: World, s: Settings, c: Settings, notes: Notes)
    requires Clean(w, c) && Proper(notes)
    ensures LoadText(w, s, Marshalled(c, notes)) == Fine(Restored(c, s))
  {
    PrintedIsRead(w, s, c, notes);
    hide LoadText, Marshalled, SchemeRead;
  }

  /** A scheme whose file gives it no name is printed without one, and comes back as the default scheme. */
  lemma NamelessSchemeIsLost(w: World, s: Settings, c: Settings, notes: Notes)
    requires Printable(c) && Proper(notes) && c.colorscheme.name == "" && "default" in w.schemes
    ensures LoadText(w, s, Marshalled(c, notes)) == Fine(Restored(c, s).(colorscheme := w.schemes["default"]))
  {
    PrintedIsRead(w, s, c, notes);
    hide LoadText, Marshalled;
  }

  /** It takes one file like the starter file of the repository: whatever was set, choosing its scheme
      works, and saving and reading that again gives another scheme. */
  lemma StarterSchemeIsLost(s: Settings, notes: Notes)
    requires Printable(s) && Proper(notes)
    ensures var mine, standard := Scheme("", [1]), Scheme("default", [0]);
            var w := World(map["default" := standard, "mine" := mine], map[]);
            var chosen := s.(colorscheme := mine);
            && LoadText(w, s, "colorscheme=mine") == Fine(chosen)
            && LoadText(w, s, Marshalled(chosen, notes)) == Fine(Restored(chosen, s).(colorscheme := standard))
  {
    var mine, standard := Scheme("", [1]), Scheme("default", [0]);
    var w := World(map["default" := standard, "mine" := mine], map[]);
    MineIsText();
    SchemeChosen(w, s, "mine");
    hide TextOk;
    NamelessSchemeIsLost(w, s, s.(colorscheme := mine), notes);
  }

  lemma MineIsText()
    ensures TextOk("mine") && TextOk("") && "colorscheme" + "=" + "mine" == "colorscheme=mine"
  {
    assert LowerCase("mine");
    LowerCaseStays("mine");
  }

  /** A file of one line that names a scheme. */
  lemma SchemeChosen(w: World, s: Settings, name: string)
    requires TextOk(name)
    ensures AllLines([DropCR("colorscheme" + "=" + name)])
    ensures LoadText(w, s, "colorscheme" + "=" + name) == LoadLines(w, s, [DropCR("colorscheme" + "=" + name)])
    ensures LoadText(w, s, "colorscheme" + "=" + name) ==
              match FromName(w, name) case None => Error(s) case Some(found) => Fine(s.(colorscheme := found))
  {
    var e := Entry([], true, Colorscheme, name);
    var line := "colorscheme" + "=" + name;
    EntryRead(w, s, e);
    ActOnText(w, s, e);
    assert Line(e) == line by {
      assert "" + "colorscheme" == "colorscheme";
    }
    OnlyLine(line);
    hide LoadLine, TextOk, FromName, Lines, Act;
    assert LoadLines(w, s, [DropCR(line)]) ==
             match FromName(w, name) case None => Error(s) case Some(found) => Fine(s.(colorscheme := found));
  }

  lemma OnlyLine(line: string)
    requires line != "" && Lacks(line, '\n')
    ensures Lines(line) == [DropCR(line)] && AllLines([DropCR(line)])
  {
    SplitFirst(line, "", '\n');
  }

  // ---------------------------------------------------------------- what a file of one line sets

  /** A key as it may stand in front of the equals sign. */
  predicate KeyText(name: string) {
    name != "" && name[0] != '#' && !IsSpace(name[0]) && Lacks(name, '=') && Lacks(name, '\n')
  }

  lemma LineRead(w: World, s: Settings, name: string, value: string)
    requires KeyText(name) && TextOk(value)
    ensures LoadText(w, s, name + "=" + value) == Assign(w, s, KeyOf(ToLower(name)), ToLower(name), value)
  {
    var line := name + "=" + value;
    assert Lacks(line, '\n') && line != "" && line[0] == name[0];
    assert TrimRight(value) == value;
    hide Assign, KeyOf, TrimSpace, TrimRight, ToLower, LoadText, Split;
    OneLineRead(w, s, line);
    ValueTrimmed(name, value);
    PartsOfLine(name, value);
    TrimIgnoresCR(line);
  }

  lemma OneLineRead(w: World, s: Settings, line: string)
    requires line != "" && Lacks(line, '\n')
    ensures LoadText(w, s, line) == LoadLine(w, s, DropCR(line))
  {
    OnlyLine(line);
    hide Lines, LoadLine, DropCR;
    FirstThenRest(w, s, DropCR(line), []);
    assert [DropCR(line)] + [] == [DropCR(line)];
  }

  lemma {:induction false} FirstThenRest(w: World, s: Settings, line: string, rest: seq<string>)
    ensures var first := LoadLine(w, s, line);
            LoadLines(w, s, [line] + rest) == if first.Fine? then LoadLines(w, first.s, rest) else first
    ensures rest == [] ==> LoadLines(w, s, [line] + rest) == LoadLine(w, s, line)
  {
    hide LoadLine;
    assert ([line] + rest)[1..] == rest;
  }

  const NAMED: set<string> := {
    "configdir", "logdir", "logfile", "graphhorizontalscale", "helpvisible", "colorscheme", "updateinterval",
    "averagecpu", "percpuload", "tempscale", "statusbar", "netinterface", "layout", "maxlogsize",
    "metricsexportport", "mbps", "temperatures", "nvidia", "nvidiarefresh"
  }

  lemma UnnamedIsExtension(name: string)
    requires name !in NAMED
    ensures KeyOf(name) == Extension
  {
  }

  /** A key without a meaning of its own, such as the extensions use, is kept with its value, in lower case. */
  lemma ExtensionRead(w: World, s: Settings, name: string, value: string)
    requires KeyText(name) && TextOk(value) && ToLower(name) !in NAMED
    ensures LoadText(w, s, name + "=" + value) == Fine(s.(extensionVars := s.extensionVars[ToLower(name) := value]))
  {
    hide KeyText, TextOk, KeyOf, ToLower, LoadText;
    LineRead(w, s, name, value);
    UnnamedIsExtension(ToLower(name));
  }

  /** Keys can be written in capitals. */
  lemma CapitalsRead(w: World, s: Settings, name: string, value: string)
    requires KeyText(name) && TextOk(value)
    ensures LoadText(w, s, name + "=" + value) == LoadText(w, s, ToLower(name) + "=" + value)
  {
    LowerKeyText(name);
    LowerTwice(name);
    hide KeyText, TextOk, KeyOf, ToLower, LoadText, Assign;
    LineRead(w, s, name, value);
    LineRead(w, s, ToLower(name), value);
  }

  lemma LowerKeyText(name: string)
    requires KeyText(name)
    ensures KeyText(ToLower(name))
  {
    var r := ToLower(name);
    assert r[0] == LowerChar(name[0]);
    forall i | 0 <= i < |r|
      ensures r[i] != '=' && r[i] != '\n'
    {
      assert r[i] == LowerChar(name[i]);
    }
  }

  lemma LowerCaseIsKey(name: string)
    requires name != "" && LowerCase(name)
    ensures KeyText(name) && ToLower(name) == name
  {
    LowerCaseStays(name);
  }

  lemma OtherNames()
    ensures LowerCase("nvidiarefresh") && LowerCase("configdir") && LowerCase("logdir") && LowerCase("logfile")
    ensures KeyOf("nvidiarefresh") == NvidiaRefresh
    ensures KeyOf("configdir") == KeyOf("logdir") == KeyOf("logfile") == Deprecated
  {
  }

  /** A refresh interval is parsed, if it can be. */
  lemma DurationRead(w: World, s: Settings, value: string)
    requires TextOk(value)
    ensures LoadText(w, s, "nvidiarefresh" + "=" + value) ==
              if value in w.durations then Fine(s.(nvidiaRefresh := w.durations[value])) else Error(s)
  {
    hide KeyText, TextOk, KeyOf, ToLower, LoadText, LowerCase;
    OtherNames();
    LowerCaseIsKey("nvidiarefresh");
    LineRead(w, s, "nvidiarefresh", value);
  }

  /** Keys from earlier versions set nothing. */
  lemma DeprecatedRead(w: World, s: Settings, name: string, value: string)
    requires TextOk(value) && (name == "configdir" || name == "logdir" || name == "logfile")
    ensures LoadText(w, s, name + "=" + value) == Fine(s)
  {
    hide KeyText, TextOk, KeyOf, ToLower, LoadText, LowerCase;
    OtherNames();
    LowerCaseIsKey(name);
    LineRead(w, s, name, value);
  }

  lemma PrintedKeyRead(w: World, s: Settings, key: Key, value: string)
    requires IsPrinted(key) && TextOk(value)
    ensures LoadText(w, s, NameOf(key) + "=" + value) == Assign(w, s, key, NameOf(key), value)
  {
    hide KeyText, TextOk, KeyOf, NameOf, ToLower, LoadText, LowerCase, Assign;
    NamesAreLowerCase(key);
    NamesAreDistinct(key);
    LowerCaseIsKey(NameOf(key));
    LineRead(w, s, NameOf(key), value);
  }

  function WithFlag(s: Settings, key: Key, b: bool): Settings
    requires key in {HelpVisible, AverageCpu, PercpuLoad, Statusbar, Nvidia}
  {
    match key
    case HelpVisible => s.(helpVisible := b)
    case AverageCpu => s.(averageLoad := b)
    case PercpuLoad => s.(percpuLoad := b)
    case Statusbar => s.(statusbar := b)
    case _ => s.(nvidia := b)
  }

  /** A flag has six spellings each way; any other is an error. */
  lemma FlagRead(w: World, s: Settings, key: Key, value: string)
    requires key in {HelpVisible, AverageCpu, PercpuLoad, Statusbar, Nvidia} && TextOk(value)
    ensures LoadText(w, s, NameOf(key) + "=" + value) ==
              if value in {"1", "t", "T", "TRUE", "true", "True"} then Fine(WithFlag(s, key, true))
              else if value in {"0", "f", "F", "FALSE", "false", "False"} then Fine(WithFlag(s, key, false))
              else Error(s)
  {
    hide TextOk, NameOf, LoadText, ParseBool;
    PrintedKeyRead(w, s, key, value);
    FlagSpelling(value);
  }

  lemma FlagSpelling(value: string)
    ensures ParseBool(value) ==
              if value in {"1", "t", "T", "TRUE", "true", "True"} then Some(true)
              else if value in {"0", "f", "F", "FALSE", "false", "False"} then Some(false)
              else None
  {
  }

  /** A number is set if it is one that fits; else nothing is. */
  lemma NumberRead(w: World, s: Settings, key: Key, value: string)
    requires key in {GraphHorizontalScale, UpdateInterval, MaxLogSize} && TextOk(value)
    ensures LoadText(w, s, NameOf(key) + "=" + value) ==
              match Atoi(value)
              case None => Error(s)
              case Some(n) => Fine(match key
                                   case GraphHorizontalScale => s.(graphHorizontalScale := n)
                                   case UpdateInterval => s.(updateInterval := n)
                                   case _ => s.(maxLogSize := n))
  {
    hide TextOk, NameOf, LoadText, Atoi;
    PrintedKeyRead(w, s, key, value);
  }

  /** A wrong temperature scale is an error that sets Celsius. */
  lemma ScaleRead(w: World, s: Settings, value: string)
    requires TextOk(value)
    ensures LoadText(w, s, "tempscale" + "=" + value) ==
              if value == "C" then Fine(s.(tempScale := 'C'))
              else if value == "F" then Fine(s.(tempScale := 'F'))
              else Error(s.(tempScale := 'C'))
  {
    hide TextOk, LoadText;
    PrintedKeyRead(w, s, TempScale, value);
  }

  /** The sensors read are what is written between the commas; so an empty list is read as one empty name. */
  lemma SensorsRead(w: World, s: Settings, value: string)
    requires TextOk(value)
    ensures var o := LoadText(w, s, "temperatures" + "=" + value);
            && o == Fine(s.(temps := o.s.temps)) && o.s.temps != []
            && Join(o.s.temps, ',') == value && forall i :: 0 <= i < |o.s.temps| ==> Lacks(o.s.temps[i], ',')
  {
    SplitParts(value, ',');
    PrintedKeyRead(w, s, Temperatures, value);
    hide TextOk, LoadText, Split, Join;
  }

  /** Any value at all switches `mbps` on. */
  lemma MbpsRead(w: World, s: Settings, value: string)
    requires TextOk(value)
    ensures LoadText(w, s, "mbps" + "=" + value) == Fine(s.(mbps := true))
  {
    hide TextOk, LoadText;
    PrintedKeyRead(w, s, Mbps, value);
  }

  /** Which line sets which flag, ... */
  lemma FlagNames(w: World, s: Settings, b: bool)
    ensures LoadText(w, s, "helpvisible" + "=" + FormatBool(b)) == Fine(s.(helpVisible := b))
    ensures LoadText(w, s, "averagecpu" + "=" + FormatBool(b)) == Fine(s.(averageLoad := b))
    ensures LoadText(w, s, "percpuload" + "=" + FormatBool(b)) == Fine(s.(percpuLoad := b))
    ensures LoadText(w, s, "statusbar" + "=" + FormatBool(b)) == Fine(s.(statusbar := b))
    ensures LoadText(w, s, "nvidia" + "=" + FormatBool(b)) == Fine(s.(nvidia := b))
  {
    var value := FormatBool(b);
    BoolsAreText();
    hide LoadText, TextOk, ParseBool, FormatBool;
    PrintedKeyRead(w, s, HelpVisible, value);
    PrintedKeyRead(w, s, AverageCpu, value);
    PrintedKeyRead(w, s, PercpuLoad, value);
    PrintedKeyRead(w, s, Statusbar, value);
    PrintedKeyRead(w, s, Nvidia, value);
  }

  /** ... which line which number, ... */
  lemma NumberNames(w: World, s: Settings, n: Int64)
    ensures LoadText(w, s, "graphhorizontalscale" + "=" + Itoa(n)) == Fine(s.(graphHorizontalScale := n))
    ensures LoadText(w, s, "updateinterval" + "=" + Itoa(n)) == Fine(s.(updateInterval := n))
    ensures LoadText(w, s, "maxlogsize" + "=" + Itoa(n)) == Fine(s.(maxLogSize := n))
  {
    NumbersAreText(n);
    AtoiItoa(n);
    hide LoadText, TextOk, Atoi, Itoa;
    PrintedKeyRead(w, s, GraphHorizontalScale, Itoa(n));
    PrintedKeyRead(w, s, UpdateInterval, Itoa(n));
    PrintedKeyRead(w, s, MaxLogSize, Itoa(n));
  }

  /** ... which line which text, and the scheme that a name stands for, without a name the default one. */
  lemma TextNames(w: World, s: Settings, value: string)
    requires TextOk(value)
    ensures LoadText(w, s, "netinterface" + "=" + value) == Fine(s.(netInterface := value))
    ensures LoadText(w, s, "layout" + "=" + value) == Fine(s.(layout := value))
    ensures LoadText(w, s, "metricsexportport" + "=" + value) == Fine(s.(exportPort := value))
    ensures var scheme := if value == "" then "default" else value;
            LoadText(w, s, "colorscheme" + "=" + value) ==
              if scheme in w.schemes then Fine(s.(colorscheme := w.schemes[scheme])) else Error(s)
  {
    hide LoadText, TextOk;
    PrintedKeyRead(w, s, NetInterface, value);
    PrintedKeyRead(w, s, LayoutName, value);
    PrintedKeyRead(w, s, Export, value);
    PrintedKeyRead(w, s, Colorscheme, value);
  }

  // ---------------------------------------------------------------- line after line

  lemma FirstLine(line: string, rest: string)
    requires Lacks(line, '\n')
    ensures Lines(line + "\n" + rest) == [DropCR(line)] + Lines(rest)
  {
    assert line + "\n" + rest == line + ['\n'] + rest;
    SplitFirst(line, rest, '\n');
    var more := Split(rest, '\n');
    assert Split(line + "\n" + rest, '\n') == [line] + more;
    hide Split, DropCR, DropCRs;
    LastPart(line, more);
    DropMore(line, if more[|more| - 1] == "" then more[..|more| - 1] else more);
  }

  lemma LastPart(line: string, more: seq<string>)
    requires more != []
    ensures var parts := [line] + more;
            parts[|parts| - 1] == more[|more| - 1] && parts[..|parts| - 1] == [line] + more[..|more| - 1]
  {
  }

  lemma DropMore(line: string, more: seq<string>)
    ensures DropCRs([line] + more) == [DropCR(line)] + DropCRs(more)
  {
    hide DropCR;
  }

  /** The first line is read, and if it is fine, the rest upon what it has set. */
  lemma LineByLine(w: World, s: Settings, line: string, rest: string)
    requires line != "" && Lacks(line, '\n')
    ensures var first := LoadText(w, s, line);
            LoadText(w, s, line + "\n" + rest) == if first.Fine? then LoadText(w, first.s, rest) else first
  {
    FirstLine(line, rest);
    OneLineRead(w, s, line);
    hide LoadLine, Lines, DropCR, LoadLines;
    FirstThenRest(w, s, DropCR(line), Lines(rest));
  }

  /** A blank line stops the reader with a panic, whatever follows. */
  lemma BlankLinePanics(w: World, s: Settings, blank: string, rest: string)
    requires IsBlank(blank) && Lacks(blank, '\n')
    ensures LoadText(w, s, blank + "\n" + rest) == Panic(s)
  {
    FirstLine(blank, rest);
    TrimIgnoresCR(blank);
    BlankTrims(blank);
    hide Lines, TrimSpace, IsBlank;
  }

  lemma BlankTrims(blank: string)
    requires IsBlank(blank)
    ensures TrimSpace(blank) == ""
  {
    BlanksSkipped(blank, "");
    assert blank + "" == blank;
    FieldsOfTrimmed(blank);
  }

  /** A line with no equals sign, or with several, is an error. */
  lemma OtherLinesFail(w: World, s: Settings, line: string)
    requires line != "" && line[0] != '#' && Trimmed(line) && Lacks(line, '\n') && |Split(line, '=')| != 2
    ensures LoadText(w, s, line) == Error(s)
  {
    OneLineRead(w, s, line);
    TrimIgnoresCR(line);
    TrimSpaceTrims(line);
    hide LoadText, TrimSpace, Split, Assign;
  }

  // ---------------------------------------------------------------- only clean settings survive

  lemma ValueIsText(line: string)
    requires Lacks(line, '\n') && TrimSpace(line) != ""
    ensures var kv := Split(TrimSpace(line), '='); |kv| == 2 ==> TextOk(kv[1])
  {
    var l := TrimSpace(line);
    TrimSpaceTrims(line);
    SplitParts(l, '=');
    var kv := Split(l, '=');
    var i, j :| 0 <= i <= j <= |line| && l == line[i..j];
    assert Lacks(l, '\n');
    hide TrimSpace, Split;
    if |kv| == 2 {
      SecondOfTwo(l, kv);
    }
  }

  lemma SecondOfTwo(l: string, kv: seq<string>)
    requires |kv| == 2 && Join(kv, '=') == l && l != "" && !IsSpace(l[|l| - 1])
    requires Lacks(l, '\n') && Lacks(kv[1], '=')
    ensures TextOk(kv[1])
  {
    assert kv[1..] == [kv[1]];
    assert l == kv[0] + ['='] + kv[1];
    assert kv[1] == l[|kv[0]| + 1..];
  }

  lemma AssignKeepsPrintable(w: World, s: Settings, key: Key, name: string, value: string)
    requires SchemeNamesOk(w) && Printable(s) && TextOk(value)
    ensures var o := Assign(w, s, key, name, value); o.Fine? ==> Printable(o.s)
  {
    ChosenNameOk(w, value);
    SensorsOk(value);
    hide SchemeNamesOk, FromName, TextOk, Lacks, TempsOk, Atoi, ParseBool, Split;
    match key
    case HelpVisible | AverageCpu | PercpuLoad | Statusbar | Nvidia => FlagsKeepTexts(w, s, key, name, value);
    case GraphHorizontalScale | UpdateInterval | MaxLogSize => NumbersKeepTexts(w, s, key, name, value);
    case Extension | Deprecated | Mbps | NvidiaRefresh => OthersKeepTexts(w, s, key, name, value);
    case _ =>
  }

  predicate SameTexts(s: Settings, t: Settings) {
    && t.netInterface == s.netInterface && t.layout == s.layout && t.exportPort == s.exportPort
    && t.temps == s.temps && t.tempScale == s.tempScale && t.colorscheme == s.colorscheme
  }

  lemma FlagsKeepTexts(w: World, s: Settings, key: Key, name: string, value: string)
    requires key in {HelpVisible, AverageCpu, PercpuLoad, Statusbar, Nvidia}
    ensures SameTexts(s, Assign(w, s, key, name, value).s)
  {
    hide FromName, Atoi, ParseBool, Split;
  }

  lemma NumbersKeepTexts(w: World, s: Settings, key: Key, name: string, value: string)
    requires key in {GraphHorizontalScale, UpdateInterval, MaxLogSize}
    ensures SameTexts(s, Assign(w, s, key, name, value).s)
  {
    hide FromName, Atoi, ParseBool, Split;
  }

  lemma OthersKeepTexts(w: World, s: Settings, key: Key, name: string, value: string)
    requires key in {Extension, Deprecated, Mbps, NvidiaRefresh}
    ensures SameTexts(s, Assign(w, s, key, name, value).s)
  {
    hide FromName, Atoi, ParseBool, Split;
  }

  lemma SensorsOk(value: string)
    requires TextOk(value)
    ensures TempsOk(Split(value, ','))
  {
    SplitParts(value, ',');
    hide TextOk, Split, Join;
  }

  lemma ChosenNameOk(w: World, name: string)
    requires SchemeNamesOk(w)
    ensures FromName(w, name).Some? ==> Lacks(FromName(w, name).value.name, '\n')
  {
    hide Lacks;
  }

  /** Whatever is read, printable settings stay printable. */
  lemma {:induction false} LoadKeepsPrintable(w: World, s: Settings, lines: seq<string>)
    requires SchemeNamesOk(w) && Printable(s) && AllLines(lines)
    ensures var o := LoadLines(w, s, lines); o.Fine? ==> Printable(o.s)
    decreases |lines|
  {
    if lines != [] {
      var o := LoadLine(w, s, lines[0]);
      LineKeepsPrintable(w, s, lines[0]);
      hide LoadLine, Printable;
      if o.Fine? {
        LoadKeepsPrintable(w, o.s, lines[1..]);
      }
    }
  }

  lemma LineKeepsPrintable(w: World, s: Settings, line: string)
    requires SchemeNamesOk(w) && Printable(s) && Lacks(line, '\n')
    ensures var o := LoadLine(w, s, line); o.Fine? ==> Printable(o.s)
  {
    hide Printable, Assign, TrimSpace, Split, KeyOf, TextOk;
    if TrimSpace(line) != "" {
      ValueIsText(line);
      var kv := Split(TrimSpace(line), '=');
      if |kv| == 2 {
        AssignKeepsPrintable(w, s, KeyOf(ToLower(kv[0])), ToLower(kv[0]), kv[1]);
      }
    }
  }

  /** Every scheme that a line can choose goes by its name. */
  ghost predicate ChoosesByName(w: World) {
    forall name :: TextOk(name) && FromName(w, name).Some? ==> GoesByItsName(w, FromName(w, name).value)
  }

  lemma {:induction false} LoadKeepsName(w: World, s: Settings, lines: seq<string>)
    requires ChoosesByName(w) && GoesByItsName(w, s.colorscheme) && AllLines(lines)
    ensures var o := LoadLines(w, s, lines); o.Fine? ==> GoesByItsName(w, o.s.colorscheme)
    decreases |lines|
  {
    if lines != [] {
      var o := LoadLine(w, s, lines[0]);
      LineKeepsName(w, s, lines[0]);
      hide LoadLine, GoesByItsName, ChoosesByName;
      if o.Fine? {
        LoadKeepsName(w, o.s, lines[1..]);
      }
    }
  }

  lemma LineKeepsName(w: World, s: Settings, line: string)
    requires ChoosesByName(w) && GoesByItsName(w, s.colorscheme) && Lacks(line, '\n')
    ensures var o := LoadLine(w, s, line); o.Fine? ==> GoesByItsName(w, o.s.colorscheme)
  {
    hide ChoosesByName, Assign, TrimSpace, Split, KeyOf, TextOk, GoesByItsName;
    if TrimSpace(line) != "" {
      ValueIsText(line);
      var kv := Split(TrimSpace(line), '=');
      if |kv| == 2 {
        AssignKeepsName(w, s, KeyOf(ToLower(kv[0])), ToLower(kv[0]), kv[1]);
      }
    }
  }

  lemma AssignKeepsName(w: World, s: Settings, key: Key, name: string, value: string)
    requires ChoosesByName(w) && GoesByItsName(w, s.colorscheme) && TextOk(value)
    ensures var o := Assign(w, s, key, name, value); o.Fine? ==> GoesByItsName(w, o.s.colorscheme)
  {
    hide TextOk, GoesByItsName, FromName, Atoi, ParseBool, Split;
  }

  /** Clean settings stay clean whatever is read, exactly if every scheme that can be chosen goes by its name. */
  lemma LoadKeepsCleanIff(w: World, s: Settings)
    requires SchemeNamesOk(w) && Clean(w, s)
    ensures (forall lines :: AllLines(lines) && LoadLines(w, s, lines).Fine? ==> Clean(w, LoadLines(w, s, lines).s))
       <==> ChoosesByName(w)
  {
    if ChoosesByName(w) {
      forall lines | AllLines(lines) && LoadLines(w, s, lines).Fine?
        ensures Clean(w, LoadLines(w, s, lines).s)
      {
        LoadKeepsPrintable(w, s, lines);
        LoadKeepsName(w, s, lines);
        hide LoadLines, Printable, GoesByItsName;
      }
    } else {
      var name :| TextOk(name) && FromName(w, name).Some? && !GoesByItsName(w, FromName(w, name).value);
      SchemeChosen(w, s, name);
      var lines := [DropCR("colorscheme" + "=" + name)];
      hide LoadLines, LoadText, FromName, Printable, GoesByItsName;
      assert LoadLines(w, s, lines) == Fine(s.(colorscheme := FromName(w, name).value));
    }
  }

  /** Exactly the clean settings survive being saved and read back, over any settings that are printable, as
      the built-in ones are. */
  lemma RoundTripIffClean(w: World, s: Settings, c: Settings, notes: Notes)
    requires SchemeNamesOk(w) && Printable(s) && Proper(notes)
    ensures LoadText(w, s, Marshalled(c, notes)) == Fine(Restored(c, s)) <==> Clean(w, c)
  {
    hide Printable, LoadLines, Lines, Marshalled, Proper, AllLines, SchemeRead, SchemeNamesOk;
    if Printable(c) {
      PrintedIsRead(w, s, c, notes);
    } else {
      LinesLackLineFeeds(Marshalled(c, notes));
      LoadKeepsPrintable(w, s, Lines(Marshalled(c, notes)));
      if Printable(Restored(c, s)) {
        RestoredIsPrintableOnly(s, c);
      }
    }
  }

  lemma RestoredIsPrintableOnly(s: Settings, c: Settings)
    requires Printable(Restored(c, s))
    ensures Printable(c)
  {
  }

  /** `mbps` comes back on whatever was saved, so it survives exactly when it was on. */
  lemma MbpsSurvivesIffOn(w: World, s: Settings, c: Settings, notes: Notes)
    requires Printable(c) && Proper(notes) && SchemeRead(w, c.colorscheme.name).Some?
    ensures LoadText(w, s, Marshalled(c, notes)).s.mbps == c.mbps <==> c.mbps
  {
    PrintedIsRead(w, s, c, notes);
    hide LoadText, Marshalled, SchemeRead;
  }

  // ---------------------------------------------------------------- the record and its file

  /** The text of one entry. */
  function EntryText(e: Entry): string
    requires IsPrinted(e.key)
  {
    Unlines(e.comments + [Line(e)])
  }

  lemma EntryTextIs(e: Entry)
    requires IsPrinted(e.key)
    ensures EntryText(e) ==
              Unlines(e.comments) + (((if e.visible then "" else "#") + NameOf(e.key) + "=" + e.value) + "\n")
  {
    hide NameOf;
    UnlinesMore(e.comments, [Line(e)]);
    assert Unlines([Line(e)]) == Line(e) + "\n";
  }

  lemma Regroup(buff: string, comments: string, hash: string, name: string, value: string)
    ensures buff + comments + hash + name + "=" + value + "\n"
         == buff + (comments + ((hash + name + "=" + value) + "\n"))
  {
  }

  function Texts(es: seq<Entry>): string
    requires AllPrinted(es)
  {
    if es == [] then "" else EntryText(es[0]) + Texts(es[1..])
  }

  lemma {:induction false} TextsAreFile(es: seq<Entry>, end: seq<string>)
    requires AllPrinted(es)
    ensures Unlines(FileLines(es, end)) == Texts(es) + Unlines(end)
  {
    hide Line;
    if es != [] {
      TextsAreFile(es[1..], end);
      UnlinesMore(es[0].comments + [Line(es[0])], FileLines(es[1..], end));
    }
  }

  lemma {:induction false} TextsMore(es: seq<Entry>, more: seq<Entry>)
    requires AllPrinted(es) && AllPrinted(more)
    ensures Texts(es + more) == Texts(es) + Texts(more)
  {
    hide EntryText;
    if es == [] {
      assert es + more == more;
    } else {
      assert (es + more)[1..] == es[1..] + more;
      TextsMore(es[1..], more);
    }
  }

  lemma FiveTexts(es: seq<Entry>)
    requires AllPrinted(es) && |es| == 5
    ensures Texts(es) == EntryText(es[0]) + EntryText(es[1]) + EntryText(es[2]) + EntryText(es[3]) + EntryText(es[4])
  {
    assert es[..0] == [] && es[..5] == es;
    hide EntryText, Texts;
    OneText(es, 0);
    NoText();
    assert Texts(es[..1]) == EntryText(es[0]);
    OneText(es, 1);
    OneText(es, 2);
    OneText(es, 3);
    OneText(es, 4);
  }

  lemma NoText()
    ensures Texts([]) == ""
  {
  }

  lemma OneText(es: seq<Entry>, k: nat)
    requires AllPrinted(es) && k < |es|
    ensures Texts(es[..k + 1]) == Texts(es[..k]) + EntryText(es[k])
  {
    assert es[..k + 1] == es[..k] + [es[k]];
    TextsMore(es[..k], [es[k]]);
    hide EntryText;
  }

  lemma NeverPanics(w: World, s: Settings, key: Key, name: string, value: string)
    ensures !Assign(w, s, key, name, value).Panic?
  {
    hide Atoi, ParseBool, FromName, Split;
  }

  datatype LoadResult = NoError | SomeError | Panicked

  class Config {
    var graphHorizontalScale: Int64
    var helpVisible: bool
    var colorscheme: Scheme
    var updateInterval: Int64
    var averageLoad: bool
    var percpuLoad: bool
    var statusbar: bool
    var tempScale: char
    var netInterface: string
    var layout: string
    var maxLogSize: Int64
    var exportPort: string
    var mbps: bool
    var temps: seq<string>
    var extensionVars: map<string, string>
    var nvidia: bool
    var nvidiaRefresh: int

    ghost function View(): Settings
      reads this
    {
      Settings(graphHorizontalScale, helpVisible, colorscheme, updateInterval, averageLoad, percpuLoad, statusbar,
               tempScale, netInterface, layout, maxLogSize, exportPort, mbps, temps, extensionVars, nvidia,
               nvidiaRefresh)
    }

    constructor (s: Settings)
      ensures View() == s
    {
      graphHorizontalScale := s.graphHorizontalScale;
      helpVisible := s.helpVisible;
      colorscheme := s.colorscheme;
      updateInterval := s.updateInterval;
      averageLoad := s.averageLoad;
      percpuLoad := s.percpuLoad;
      statusbar := s.statusbar;
      tempScale := s.tempScale;
      netInterface := s.netInterface;
      layout := s.layout;
      maxLogSize := s.maxLogSize;
      exportPort := s.exportPort;
      mbps := s.mbps;
      temps := s.temps;
      extensionVars := s.extensionVars;
      nvidia := s.nvidia;
      nvidiaRefresh := s.nvidiaRefresh;
    }

    /** The branches of the switch that parse a flag. */
    method SetFlag(w: World, key: Key, name: string, value: string) returns (ok: bool)
      requires key in {HelpVisible, AverageCpu, PercpuLoad, Statusbar, Nvidia}
      modifies this
      ensures var o := Assign(w, old(View()), key, name, value); View() == o.s && ok == o.Fine?
    {
      hide ParseBool;
      var bv := ParseBool(value);
      if bv.None? {
        return false;
      }
      if key.HelpVisible? {
        helpVisible := bv.value;
      } else if key.AverageCpu? {
        averageLoad := bv.value;
      } else if key.PercpuLoad? {
        percpuLoad := bv.value;
      } else if key.Statusbar? {
        statusbar := bv.value;
      } else {
        nvidia := bv.value;
      }
      return true;
    }

    /** Those that parse a number. */
    method SetNumber(w: World, key: Key, name: string, value: string) returns (ok: bool)
      requires key in {GraphHorizontalScale, UpdateInterval, MaxLogSize}
      modifies this
      ensures var o := Assign(w, old(View()), key, name, value); View() == o.s && ok == o.Fine?
    {
      hide Atoi;
      var iv := Atoi(value);
      if iv.None? {
        return false;
      }
      if key.GraphHorizontalScale? {
        graphHorizontalScale := iv.value;
      } else if key.UpdateInterval? {
        updateInterval := iv.value;
      } else {
        maxLogSize := iv.value;
      }
      return true;
    }

    /** Those that can fail in another way. */
    method SetChecked(w: World, key: Key, name: string, value: string) returns (ok: bool)
      requires key in {Colorscheme, TempScale, NvidiaRefresh}
      modifies this
      ensures var o := Assign(w, old(View()), key, name, value); View() == o.s && ok == o.Fine?
    {
      hide FromName;
      if key.Colorscheme? {
        var cs := FromName(w, value);
        if cs.None? {
          return false;
        }
        colorscheme := cs.value;
      } else if key.TempScale? {
        if value == "C" {
          tempScale := 'C';
        } else if value == "F" {
          tempScale := 'F';
        } else {
          tempScale := 'C';
          return false;
        }
      } else {
        if value !in w.durations {
          return false;
        }
        nvidiaRefresh := w.durations[value];
      }
      return true;
    }

    /** Those that take any text. */
    method SetText(w: World, key: Key, name: string, value: string)
      requires key in {NetInterface, LayoutName, Export}
      modifies this
      ensures var o := Assign(w, old(View()), key, name, value); View() == o.s && o.Fine?
    {
      if key.NetInterface? {
        netInterface := value;
      } else if key.LayoutName? {
        layout := value;
      } else {
        exportPort := value;
      }
    }

    /** And the others that cannot fail. */
    method SetOther(w: World, key: Key, name: string, value: string)
      requires key in {Extension, Deprecated, Mbps, Temperatures}
      modifies this
      ensures var o := Assign(w, old(View()), key, name, value); View() == o.s && o.Fine?
    {
      hide Split;
      if key.Extension? {
        extensionVars := extensionVars[name := value];
      } else if key.Mbps? {
        mbps := true;
      } else if key.Temperatures? {
        temps := Split(value, ',');
      }
    }

    /** The whole switch. */
    method SetField(w: World, key: Key, name: string, value: string) returns (ok: bool)
      modifies this
      ensures var o := Assign(w, old(View()), key, name, value); View() == o.s && ok == o.Fine? && !o.Panic?
    {
      NeverPanics(w, View(), key, name, value);
      hide Assign;
      match key {
        case HelpVisible | AverageCpu | PercpuLoad | Statusbar | Nvidia => ok := SetFlag(w, key, name, value);
        case GraphHorizontalScale | UpdateInterval | MaxLogSize => ok := SetNumber(w, key, name, value);
        case Colorscheme | TempScale | NvidiaRefresh => ok := SetChecked(w, key, name, value);
        case NetInterface | LayoutName | Export =>
          SetText(w, key, name, value);
          ok := true;
        case _ =>
          SetOther(w, key, name, value);
          ok := true;
      }
    }

    /** `load`: line by line, until one is wrong. */
    method Load(w: World, text: string) returns (r: LoadResult)
      modifies this
      ensures match LoadText(w, old(View()), text)
              case Fine(s) => r == NoError && View() == s
              case Error(s) => r == SomeError && View() == s
              case Panic(s) => r == Panicked && View() == s
    {
      hide Assign, TrimSpace, Split, KeyOf, ToLower, Lines;
      var lines := Lines(text);
      var i := 0;
      while i < |lines|
        invariant 0 <= i <= |lines|
        invariant LoadLines(w, View(), lines[i..]) == LoadLines(w, old(View()), lines)
      {
        assert lines[i..][0] == lines[i] && lines[i..][1..] == lines[i + 1..];
        var l := TrimSpace(lines[i]);
        i := i + 1;
        if l == "" {
          return Panicked;
        }
        if l[0] == '#' {
          continue;
        }
        var kv := Split(l, '=');
        if |kv| != 2 {
          return SomeError;
        }
        var key := ToLower(kv[0]);
        var ok := SetField(w, KeyOf(key), key, kv[1]);
        if !ok {
          return SomeError;
        }
      }
      return NoError;
    }

    /** Prints the comment lines of a setting, and its line behind them. */
    method PrintSetting(buff: string, notes: Notes, visible: bool, key: Key, value: string) returns (r: string)
      requires IsPrinted(key)
      ensures r == buff + EntryText(Entry(notes(key), visible, key, value))
    {
      ghost var e := Entry(notes(key), visible, key, value);
      hide NameOf, Unlines;
      EntryTextIs(e);
      r := buff + Unlines(notes(key));
      Regroup(buff, Unlines(notes(key)), if visible then "" else "#", NameOf(key), value);
      if !visible {
        r := r + "#";
      } else {
        assert r + "" == r;
      }
      r := r + NameOf(key) + "=" + value + "\n";
    }

    method MarshalGraph(notes: Notes) returns (buff: string)
      ensures buff == Texts(GraphEntries(View(), notes))
    {
      hide EntryText, Itoa, FormatBool;
      FiveTexts(GraphEntries(View(), notes));
      buff := "";
      buff := PrintSetting(buff, notes, true, GraphHorizontalScale, Itoa(graphHorizontalScale));
      buff := PrintSetting(buff, notes, true, HelpVisible, FormatBool(helpVisible));
      buff := PrintSetting(buff, notes, true, Colorscheme, colorscheme.name);
      buff := PrintSetting(buff, notes, true, UpdateInterval, Itoa(updateInterval));
      buff := PrintSetting(buff, notes, true, AverageCpu, FormatBool(averageLoad));
    }

    method MarshalDisplay(notes: Notes) returns (buff: string)
      ensures buff == Texts(DisplayEntries(View(), notes))
    {
      hide EntryText, FormatBool;
      FiveTexts(DisplayEntries(View(), notes));
      buff := "";
      buff := PrintSetting(buff, notes, true, PercpuLoad, FormatBool(percpuLoad));
      buff := PrintSetting(buff, notes, true, TempScale, [tempScale]);
      buff := PrintSetting(buff, notes, true, Statusbar, FormatBool(statusbar));
      buff := PrintSetting(buff, notes, true, NetInterface, netInterface);
      buff := PrintSetting(buff, notes, true, LayoutName, layout);
    }

    method MarshalSystem(notes: Notes) returns (buff: string)
      ensures buff == Texts(SystemEntries(View(), notes))
    {
      hide EntryText, Itoa, FormatBool, Join;
      FiveTexts(SystemEntries(View(), notes));
      buff := "";
      buff := PrintSetting(buff, notes, true, MaxLogSize, Itoa(maxLogSize));
      buff := PrintSetting(buff, notes, exportPort != "", Export, exportPort);
      buff := PrintSetting(buff, notes, true, Mbps, FormatBool(mbps));
      buff := PrintSetting(buff, notes, temps != [], Temperatures, Join(temps, ','));
      buff := PrintSetting(buff, notes, true, Nvidia, FormatBool(nvidia));
    }

    /** `marshal`: the three parts of the file, and its last comments. */
    method Marshal(notes: Notes) returns (buff: string)
      ensures buff == Marshalled(View(), notes)
    {
      hide Texts, GraphEntries, DisplayEntries, SystemEntries, FileLines, Unlines;
      var graph := MarshalGraph(notes);
      var display := MarshalDisplay(notes);
      var system := MarshalSystem(notes);
      buff := graph + display + system + Unlines(notes(NvidiaRefresh));
      ghost var g, d, y := GraphEntries(View(), notes), DisplayEntries(View(), notes), SystemEntries(View(), notes);
      TextsMore(g, d);
      TextsMore(g + d, y);
      TextsAreFile(Entries(View(), notes), notes(NvidiaRefresh));
    }
  }

  /** A saved configuration, read back into another one. */
  method SaveAndLoad(w: World, saved: Config, loaded: Config, notes: Notes) returns (r: LoadResult)
    requires Clean(w, saved.View()) && Proper(notes) && saved != loaded
    modifies loaded
    ensures r == NoError && loaded.View() == Restored(saved.View(), old(loaded.View()))
  {
    hide Clean, Proper, LoadText, Marshalled, Restored;
    var text := saved.Marshal(notes);
    RoundTrip(w, loaded.View(), saved.View(), notes);
    r := loaded.Load(w, text);
  }
}
