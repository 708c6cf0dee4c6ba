/** The process list of widgets/proc.go: filtering, grouping by command, sorting, and the table rows
    they end up in. */
module Proc {
  import opened GoInt
  import opened Text
  import S = Sequences
  import T = Table

  datatype Proc = Proc(pid: int, commandName: string, fullCommand: string, cpu: real, mem: real)

  datatype SortMethod = ByCpu | ByMem | ByPid | ByCmd

  // ---------------------------------------------------------------- filtering

  /** `strings.Contains`. */
  predicate Contains(s: string, part: string) {
    exists i :: 0 <= i <= |s| - |part| && s[i..][..|part|] == part
  }

  predicate Passes(p: Proc, filter: string) {
    filter == "" || Contains(p.fullCommand, filter) || Contains(Itoa(p.pid), filter)
  }

  function Filtered(procs: seq<Proc>, filter: string): seq<Proc> {
    if procs == [] then []
    else Filtered(procs[..|procs| - 1], filter) +
         (if Passes(procs[|procs| - 1], filter) then [procs[|procs| - 1]] else [])
  }

  /** Filtering keeps exactly the processes that pass, each as often as it was there. */
  lemma {:induction false} FilterKeepsPassing(procs: seq<Proc>, filter: string)
    ensures forall p :: multiset(Filtered(procs, filter))[p] == if Passes(p, filter) then multiset(procs)[p] else 0
  {
    hide Passes;
    if procs != [] {
      FilterKeepsPassing(procs[..|procs| - 1], filter);
      assert procs == procs[..|procs| - 1] + [procs[|procs| - 1]];
    }
  }

  /** A process passes if the filter occurs somewhere in its command line or its PID. */
  lemma PassesIff(p: Proc, filter: string)
    ensures Passes(p, filter) <==>
              || (exists a, b :: p.fullCommand == a + filter + b)
              || (exists a, b :: Itoa(p.pid) == a + filter + b)
  {
    hide Contains, Itoa;
    ContainsIff(p.fullCommand, filter);
    ContainsIff(Itoa(p.pid), filter);
    if filter == "" {
      assert p.fullCommand == "" + filter + p.fullCommand;
    }
  }

  lemma ContainsIff(s: string, part: string)
    ensures Contains(s, part) <==> exists a, b :: s == a + part + b
  {
    if Contains(s, part) {
      var i :| 0 <= i <= |s| - |part| && s[i..][..|part|] == part;
      assert s == s[..i] + part + s[i..][|part|..];
    }
    if exists a, b :: s == a + part + b {
      var a, b :| s == a + part + b;
      assert s[|a|..][..|part|] == part;
    }
  }

  method FilterProcs(procs: seq<Proc>, filter: string) returns (filtered: seq<Proc>)
    ensures filtered == Filtered(procs, filter)
  {
    hide Contains;
    if filter == "" {
      EmptyFilterKeepsAll(procs);
      return procs;
    }
    filtered := [];
    for i := 0 to |procs|
      invariant filtered == Filtered(procs[..i], filter)
    {
      assert procs[..i + 1][..i] == procs[..i];
      var p := procs[i];
      if Contains(p.fullCommand, filter) || Contains(Itoa(p.pid), filter) {
        filtered := filtered + [p];
      }
    }
    assert procs[..|procs|] == procs;
  }

  lemma {:induction false} EmptyFilterKeepsAll(procs: seq<Proc>)
    ensures Filtered(procs, "") == procs
  {
    if procs != [] {
      EmptyFilterKeepsAll(procs[..|procs| - 1]);
    }
  }

  // ---------------------------------------------------------------- grouping

  function CountOf(procs: seq<Proc>, name: string): nat {
    if procs == [] then 0
    else CountOf(procs[..|procs| - 1], name) + if procs[|procs| - 1].commandName == name then 1 else 0
  }

  function CpuOf(procs: seq<Proc>, name: string): real {
    if procs == [] then 0.0
    else CpuOf(procs[..|procs| - 1], name) + if procs[|procs| - 1].commandName == name then procs[|procs| - 1].cpu else 0.0
  }

  function MemOf(procs: seq<Proc>, name: string): real {
    if procs == [] then 0.0
    else MemOf(procs[..|procs| - 1], name) + if procs[|procs| - 1].commandName == name then procs[|procs| - 1].mem else 0.0
  }

  /** The row that stands for all processes with a command. */
  function Group(procs: seq<Proc>, name: string): Proc {
    Proc(CountOf(procs, name), name, "", CpuOf(procs, name), MemOf(procs, name))
  }

  function Commands(procs: seq<Proc>): set<string> {
    set p | p in procs :: p.commandName
  }

  lemma CommandsOf(procs: seq<Proc>, last: Proc)
    ensures Commands(procs + [last]) == Commands(procs) + {last.commandName}
    ensures Commands([]) == {}
  {
    assert last in procs + [last];
    assert forall p :: p in procs ==> p in procs + [last];
  }

  predicate DistinctCommands(groups: seq<Proc>) {
    forall i, j :: 0 <= i < j < |groups| ==> groups[i].commandName != groups[j].commandName
  }

  /** Exactly one group for each command, with the number and the totals of its processes. */
  ghost predicate IsGrouping(groups: seq<Proc>, procs: seq<Proc>) {
    && DistinctCommands(groups)
    && Commands(groups) == Commands(procs)
    && forall i :: 0 <= i < |groups| ==> groups[i] == Group(procs, groups[i].commandName)
  }

  ghost predicate GroupedByName(byName: map<string, Proc>, procs: seq<Proc>) {
    byName.Keys == Commands(procs) && forall name :: name in byName ==> byName[name] == Group(procs, name)
  }

  /** The first loop of `groupProcs`, which fills the map. */
  method CollectGroups(procs: seq<Proc>) returns (byName: map<string, Proc>)
    ensures GroupedByName(byName, procs)
  {
    hide Group, Commands;
    byName := map[];
    CommandsOf([], Proc(0, "", "", 0.0, 0.0));
    for i := 0 to |procs|
      invariant GroupedByName(byName, procs[..i])
    {
      var proc := procs[i];
      assert procs[..i + 1] == procs[..i] + [proc];
      CommandsOf(procs[..i], proc);
      GroupsGrow(procs[..i], proc);
      GroupName(procs[..i], proc.commandName);
      if proc.commandName in byName {
        var val := byName[proc.commandName];
        byName := byName[proc.commandName :=
          Proc(val.pid + 1, val.commandName, "", val.cpu + proc.cpu, val.mem + proc.mem)];
      } else {
        byName := byName[proc.commandName := Proc(1, proc.commandName, "", proc.cpu, proc.mem)];
      }
    }
    assert procs[..|procs|] == procs;
  }

  /** The second one, which lists it. */
  method ListGroups(byName: map<string, Proc>) returns (groups: seq<Proc>)
    requires forall name :: name in byName ==> byName[name].commandName == name
    ensures DistinctCommands(groups) && Commands(groups) == byName.Keys
    ensures forall i :: 0 <= i < |groups| ==>
              groups[i].commandName in byName && groups[i] == byName[groups[i].commandName]
  {
    hide Commands;
    groups := [];
    CommandsOf([], Proc(0, "", "", 0.0, 0.0));
    var todo := byName.Keys;
    while todo != {}
      invariant todo <= byName.Keys && Commands(groups) == byName.Keys - todo
      invariant forall i :: 0 <= i < |groups| ==>
                  groups[i].commandName in byName.Keys - todo && groups[i] == byName[groups[i].commandName]
      invariant DistinctCommands(groups)
      decreases |todo|
    {
      var name := NextKey(todo);
      CommandsOf(groups, byName[name]);
      groups := groups + [byName[name]];
      assert byName.Keys - (todo - {name}) == byName.Keys - todo + {name};
      todo := todo - {name};
    }
    assert byName.Keys - todo == byName.Keys;
  }

  method GroupProcs(procs: seq<Proc>) returns (groups: seq<Proc>)
    ensures IsGrouping(groups, procs)
  {
    hide Group, Commands;
    var byName := CollectGroups(procs);
    forall name | name in byName
      ensures byName[name].commandName == name
    {
      GroupName(procs, name);
    }
    groups := ListGroups(byName);
  }

  lemma GroupName(procs: seq<Proc>, name: string)
    ensures Group(procs, name).commandName == name
  {
  }

  lemma GroupsGrow(procs: seq<Proc>, last: Proc)
    ensures forall name :: name != last.commandName ==> Group(procs + [last], name) == Group(procs, name)
    ensures var val, name := Group(procs, last.commandName), last.commandName;
            Group(procs + [last], name) == Proc(val.pid + 1, name, "", val.cpu + last.cpu, val.mem + last.mem)
    ensures last.commandName !in Commands(procs) ==>
              Group(procs + [last], last.commandName) == Proc(1, last.commandName, "", last.cpu, last.mem)
  {
    assert (procs + [last])[..|procs|] == procs;
    if last.commandName !in Commands(procs) {
      AbsentGroup(procs, last.commandName);
    }
  }

  lemma {:induction false} AbsentGroup(procs: seq<Proc>, name: string)
    requires name !in Commands(procs)
    ensures Group(procs, name) == Proc(0, name, "", 0.0, 0.0)
  {
    if procs != [] {
      var front, last := procs[..|procs| - 1], procs[|procs| - 1];
      assert procs == front + [last];
      CommandsOf(front, last);
      AbsentGroup(front, name);
    }
  }

  // ---------------------------------------------------------------- totals

  function TotalCpu(procs: seq<Proc>): real {
    if procs == [] then 0.0 else TotalCpu(procs[..|procs| - 1]) + procs[|procs| - 1].cpu
  }

  function TotalMem(procs: seq<Proc>): real {
    if procs == [] then 0.0 else TotalMem(procs[..|procs| - 1]) + procs[|procs| - 1].mem
  }

  /** In grouped rows the first column counts processes. */
  function TotalCount(groups: seq<Proc>): int {
    if groups == [] then 0 else TotalCount(groups[..|groups| - 1]) + groups[|groups| - 1].pid
  }

  function Without(procs: seq<Proc>, name: string): seq<Proc> {
    if procs == [] then []
    else Without(procs[..|procs| - 1], name) +
         if procs[|procs| - 1].commandName == name then [] else [procs[|procs| - 1]]
  }

  /** Taking one command's processes away. */
  lemma {:induction false} SplitOff(procs: seq<Proc>, name: string)
    ensures var rest, group := Without(procs, name), Group(procs, name);
            && |procs| == |rest| + group.pid
            && TotalCpu(procs) == TotalCpu(rest) + group.cpu
            && TotalMem(procs) == TotalMem(rest) + group.mem
            && Commands(rest) == Commands(procs) - {name}
  {
    hide Group, Commands;
    CommandsOf([], Proc(0, "", "", 0.0, 0.0));
    if procs == [] {
      AbsentGroup(procs, name);
    } else {
      var front, last := procs[..|procs| - 1], procs[|procs| - 1];
      SplitOff(front, name);
      var rest := Without(front, name);
      assert procs == front + [last];
      CommandsOf(front, last);
      CommandsOf(rest, last);
      GroupsGrow(front, last);
      assert (rest + [last])[..|rest|] == rest && rest + [] == rest;
    }
  }

  lemma {:induction false} OthersStay(procs: seq<Proc>, name: string, other: string)
    requires other != name
    ensures Group(Without(procs, name), other) == Group(procs, other)
  {
    hide Group;
    if procs != [] {
      var front, last := procs[..|procs| - 1], procs[|procs| - 1];
      OthersStay(front, name, other);
      var rest := Without(front, name);
      assert procs == front + [last];
      GroupsGrow(front, last);
      GroupsGrow(rest, last);
      assert rest + [] == rest;
    }
  }

  lemma OneGroupLess(groups: seq<Proc>, procs: seq<Proc>)
    requires groups != [] && IsGrouping(groups, procs)
    ensures IsGrouping(groups[..|groups| - 1], Without(procs, groups[|groups| - 1].commandName))
  {
    hide Group, Commands, Without;
    var front, last := groups[..|groups| - 1], groups[|groups| - 1];
    SplitOff(procs, last.commandName);
    assert groups == front + [last];
    CommandsOf(front, last);
    LastIsAnother(front, last);
    forall i | 0 <= i < |front|
      ensures front[i] == Group(Without(procs, last.commandName), front[i].commandName)
    {
      OthersStay(procs, last.commandName, front[i].commandName);
      assert front[i] == groups[i];
    }
  }

  lemma LastIsAnother(front: seq<Proc>, last: Proc)
    requires DistinctCommands(front + [last])
    ensures last.commandName !in Commands(front) && DistinctCommands(front)
  {
    var groups := front + [last];
    forall i, j | 0 <= i < j < |groups|
      ensures groups[i].commandName != groups[j].commandName
    {
    }
    forall i | 0 <= i < |front|
      ensures front[i] == groups[i] && front[i].commandName != groups[|front|].commandName
    {
    }
  }

  lemma NoCommandsNoProcs(procs: seq<Proc>)
    ensures procs != [] ==> Commands(procs) != {}
  {
    if procs != [] {
      assert procs[0].commandName in Commands(procs);
    }
  }

  /** Grouping loses nothing: the counts add up to the number of processes, and the CPU and memory
      columns add up to theirs. */
  lemma {:induction false} GroupingConserves(groups: seq<Proc>, procs: seq<Proc>)
    requires IsGrouping(groups, procs)
    ensures TotalCount(groups) == |procs|
    ensures TotalCpu(groups) == TotalCpu(procs)
    ensures TotalMem(groups) == TotalMem(procs)
    decreases |groups|
  {
    if groups == [] {
      NoCommandsNoProcs(procs);
    } else {
      var last := groups[|groups| - 1];
      OneGroupLess(groups, procs);
      SplitOff(procs, last.commandName);
      hide Group, Commands, Without;
      GroupingConserves(groups[..|groups| - 1], Without(procs, last.commandName));
    }
  }

  // ---------------------------------------------------------------- sorting

  /** Strings compare by their first difference; a proper prefix is less. */
  predicate StringLess(s: string, t: string) {
    if t == "" then false
    else if s == "" then true
    else if s[0] == t[0] then StringLess(s[1..], t[1..])
    else s[0] < t[0]
  }

  lemma {:induction false} StringLessIsStrictOrder(s: string, t: string, u: string)
    ensures !StringLess(s, s)
    ensures s != t ==> (StringLess(s, t) <==> !StringLess(t, s))
    ensures StringLess(s, t) && StringLess(t, u) ==> StringLess(s, u)
  {
    if s != "" && t != "" && s[0] == t[0] {
      StringLessIsStrictOrder(s[1..], t[1..], if u == "" then "" else u[1..]);
      assert s == [s[0]] + s[1..] && t == [t[0]] + t[1..];
    }
    if s != "" {
      StringLessIsStrictOrder(s[1..], s[1..], s[1..]);
    }
  }

  /** What `sort.Sort` is given: `SortProcsBy*`, reversed for all but the PID order of single
      processes. The command order is the reverse of a comparison that is itself reversed. */
  predicate Goes(order: SortMethod, grouped: bool, p: Proc, q: Proc) {
    match order
    case ByCpu => q.cpu < p.cpu
    case ByPid => if grouped then q.pid < p.pid else p.pid < q.pid
    case ByMem => q.mem < p.mem
    case ByCmd => StringLess(ToLower(p.commandName), ToLower(q.commandName))
  }

  lemma GoesIsWeakOrder(order: SortMethod, grouped: bool, p: Proc, q: Proc, r: Proc)
    ensures Goes(order, grouped, p, q) ==> !Goes(order, grouped, q, p)
    ensures !Goes(order, grouped, q, p) && !Goes(order, grouped, r, q) ==> !Goes(order, grouped, r, p)
  {
    if order == ByCmd {
      var a, b, c := ToLower(p.commandName), ToLower(q.commandName), ToLower(r.commandName);
      StringLessIsStrictOrder(a, b, c);
      StringLessIsStrictOrder(b, c, a);
      StringLessIsStrictOrder(c, a, b);
      StringLessIsStrictOrder(a, c, b);
      hide StringLess, ToLower;
    }
  }

  predicate Ordered(order: SortMethod, grouped: bool, procs: seq<Proc>) {
    forall i, j :: 0 <= i < j < |procs| ==> !Goes(order, grouped, procs[j], procs[i])
  }

  /** The order on the screen: the greatest loads and counts first, the least PIDs, and names from A to Z. */
  lemma OrderOnScreen(order: SortMethod, grouped: bool, s: seq<Proc>, i: nat, j: nat)
    requires Ordered(order, grouped, s) && i < j < |s|
    ensures match order
            case ByCpu => s[i].cpu >= s[j].cpu
            case ByMem => s[i].mem >= s[j].mem
            case ByPid => if grouped then s[i].pid >= s[j].pid else s[i].pid <= s[j].pid
            case ByCmd => !StringLess(ToLower(s[j].commandName), ToLower(s[i].commandName))
  {
    hide StringLess, ToLower;
  }

  function Comparison(order: SortMethod, grouped: bool): (Proc, Proc) -> bool {
    (p, q) => Goes(order, grouped, p, q)
  }

  lemma ComparisonIsWeakOrder(order: SortMethod, grouped: bool, procs: seq<Proc>)
    ensures S.WeakOrder(Comparison(order, grouped), procs)
  {
    forall p, q, r
      ensures Goes(order, grouped, p, q) ==> !Goes(order, grouped, q, p)
      ensures !Goes(order, grouped, q, p) && !Goes(order, grouped, r, q) ==> !Goes(order, grouped, r, p)
    {
      GoesIsWeakOrder(order, grouped, p, q, r);
    }
    hide Goes;
  }

  /** `sort.Sort` of the processes. */
  method Sort(order: SortMethod, grouped: bool, procs: seq<Proc>) returns (sorted: seq<Proc>)
    ensures multiset(sorted) == multiset(procs) && Ordered(order, grouped, sorted)
  {
    ComparisonIsWeakOrder(order, grouped, procs);
    hide Goes, S.WeakOrder;
    sorted := S.Sort(Comparison(order, grouped), procs);
  }

  // ---------------------------------------------------------------- the widget

  /** How loads are printed: with one decimal, at least four characters wide. */
  type Format = real -> string

  /** A table row: the count or PID, the name or command line, and the loads. */
  function RowOf(p: Proc, grouped: bool, format: Format): T.Row {
    [Itoa(p.pid), if grouped then p.commandName else p.fullCommand, format(p.cpu), format(p.mem)]
  }

  function RowsOf(procs: seq<Proc>, grouped: bool, format: Format): (rows: seq<T.Row>)
    ensures |rows| == |procs|
  {
    seq(|procs|, i requires 0 <= i < |procs| => RowOf(procs[i], grouped, format))
  }

  /** A row has the count or PID first, then the name or command line, then CPU, then memory. */
  lemma ColumnsOfRow(procs: seq<Proc>, grouped: bool, format: Format, i: nat)
    requires i < |procs|
    ensures var row, p := RowsOf(procs, grouped, format)[i], procs[i];
            && |row| == 4 && row[0] == Itoa(p.pid) && row[1] == (if grouped then p.commandName else p.fullCommand)
            && row[2] == format(p.cpu) && row[3] == format(p.mem)
  {
    hide Itoa;
  }

  predicate DistinctPids(procs: seq<Proc>) {
    forall i, j :: 0 <= i < j < |procs| ==> procs[i].pid != procs[j].pid
  }

  predicate PidsFit(procs: seq<Proc>) {
    forall i :: 0 <= i < |procs| ==> FitsInt(procs[i].pid)
  }

  lemma ItoaInjective(m: int, n: int)
    requires FitsInt(m) && FitsInt(n) && Itoa(m) == Itoa(n)
    ensures m == n
  {
    AtoiItoa(m);
    AtoiItoa(n);
  }

  /** The identifying column tells all rows apart: the name in grouped rows, the PID in the others. */
  lemma RowsIdentified(procs: seq<Proc>, grouped: bool, format: Format)
    requires if grouped then DistinctCommands(procs) else DistinctPids(procs) && PidsFit(procs)
    ensures T.HasColumn(RowsOf(procs, grouped, format), if grouped then 1 else 0)
    ensures T.Identified(RowsOf(procs, grouped, format), if grouped then 1 else 0)
  {
    hide Itoa;
    if !grouped {
      forall i, j | 0 <= i < j < |procs|
        ensures Itoa(procs[i].pid) != Itoa(procs[j].pid)
      {
        if Itoa(procs[i].pid) == Itoa(procs[j].pid) {
          ItoaInjective(procs[i].pid, procs[j].pid);
        }
      }
    }
  }

  /** A grouping stays one however it is sorted. */
  lemma GroupingSorted(groups: seq<Proc>, sorted: seq<Proc>, procs: seq<Proc>)
    requires IsGrouping(groups, procs) && multiset(groups) == multiset(sorted)
    ensures IsGrouping(sorted, procs)
  {
    hide Group;
    forall p
      ensures p in sorted <==> p in groups
    {
      assert p in multiset(sorted) <==> p in multiset(groups);
    }
    assert Commands(sorted) == Commands(groups);
    forall i, j | 0 <= i < j < |sorted|
      ensures sorted[i].commandName != sorted[j].commandName
    {
      if sorted[i].commandName == sorted[j].commandName {
        assert sorted[i] in groups && sorted[j] in groups;
        TwiceInSeq(sorted, i, j);
        OnceInGrouping(groups, sorted[i]);
      }
    }
    forall i | 0 <= i < |sorted|
      ensures sorted[i] == Group(procs, sorted[i].commandName)
    {
      assert sorted[i] in groups;
    }
  }

  lemma TwiceInSeq(s: seq<Proc>, i: nat, j: nat)
    requires i < j < |s|
    ensures s[i] == s[j] ==> multiset(s)[s[i]] >= 2
  {
    assert s == s[..i] + [s[i]] + s[i + 1..j] + [s[j]] + s[j + 1..];
  }

  lemma OnceInGrouping(groups: seq<Proc>, p: Proc)
    requires DistinctCommands(groups)
    ensures multiset(groups)[p] <= 1
  {
    if groups != [] {
      var front, last := groups[..|groups| - 1], groups[|groups| - 1];
      assert groups == front + [last];
      OnceInGrouping(front, p);
      if p == last {
        assert p !in front;
        assert p !in multiset(front);
      }
    }
  }

  class ProcWidget {
    const table: T.Table
    const format: Format
    var cpuCount: int
    var sortMethod: SortMethod
    var filter: string
    var groupedProcs: seq<Proc>
    var ungroupedProcs: seq<Proc>
    var showGroupedProcs: bool

    function Shown(): seq<Proc>
      reads this
    {
      if showGroupedProcs then groupedProcs else ungroupedProcs
    }

    /** The grouped list groups the other one, the table shows one of the two as sorted, and its
        identifying column is the one that tells the rows of that list apart. */
    ghost predicate Valid()
      reads this, table
    {
      && IsGrouping(groupedProcs, ungroupedProcs)
      && Ordered(sortMethod, showGroupedProcs, Shown())
      && table.rows == RowsOf(Shown(), showGroupedProcs, format)
      && table.uniqueCol == (if showGroupedProcs then 1 else 0)
      && table.showCursor
    }

    constructor (cpuCount: int, format: Format)
      ensures Valid() && fresh(table) && filter == "" && sortMethod == ByCpu && showGroupedProcs
      ensures ungroupedProcs == []
    {
      table := new T.Table();
      this.format := format;
      this.cpuCount, sortMethod, filter := cpuCount, ByCpu, "";
      groupedProcs, ungroupedProcs, showGroupedProcs := [], [], true;
      new;
      table.showCursor := true;
      table.uniqueCol := 1;
    }

    /** Sorts the list that is shown. */
    method SortProcs()
      modifies this`groupedProcs, this`ungroupedProcs
      ensures multiset(groupedProcs) == multiset(old(groupedProcs))
      ensures multiset(ungroupedProcs) == multiset(old(ungroupedProcs))
      ensures if showGroupedProcs then ungroupedProcs == old(ungroupedProcs) else groupedProcs == old(groupedProcs)
      ensures Ordered(sortMethod, showGroupedProcs, Shown())
    {
      if showGroupedProcs {
        groupedProcs := Sort(sortMethod, true, groupedProcs);
      } else {
        ungroupedProcs := Sort(sortMethod, false, ungroupedProcs);
      }
    }

    method ConvertProcsToTableRows()
      modifies table`rows
      ensures table.rows == RowsOf(Shown(), showGroupedProcs, format)
    {
      var procs := Shown();
      var strings: seq<T.Row> := [];
      for i := 0 to |procs|
        invariant |strings| == i
        invariant forall k :: 0 <= k < i ==> strings[k] == RowOf(procs[k], showGroupedProcs, format)
      {
        var name := if showGroupedProcs then procs[i].commandName else procs[i].fullCommand;
        var row := [Itoa(procs[i].pid), name, format(procs[i].cpu), format(procs[i].mem)];
        strings := strings + [row];
      }
      table.rows := strings;
    }

    /** Takes over the processes the system reports. */
    method Update(reported: seq<Proc>)
      requires cpuCount >= 1 && table.showCursor && table.uniqueCol == if showGroupedProcs then 1 else 0
      modifies this`groupedProcs, this`ungroupedProcs, table`rows
      ensures Valid()
      ensures multiset(ungroupedProcs) == multiset(Filtered(PerCpu(reported, cpuCount), filter))
    {
      hide IsGrouping, Ordered, RowsOf, PerCpu, Filtered;
      var procs := ScaleLoads(reported, cpuCount);
      procs := FilterProcs(procs, filter);
      ungroupedProcs := procs;
      groupedProcs := GroupProcs(procs);
      ghost var groups := groupedProcs;
      SortProcs();
      GroupingResorted(groups, procs, groupedProcs, ungroupedProcs);
      ConvertProcsToTableRows();
    }

    method ChangeProcSortMethod(order: SortMethod)
      requires Valid()
      modifies this`sortMethod, this`groupedProcs, this`ungroupedProcs, table
      ensures Valid() && sortMethod == order
      ensures multiset(ungroupedProcs) == multiset(old(ungroupedProcs))
      ensures order == old(sortMethod) ==>
                table.View() == old(table.View()) && table.selectedItem == old(table.selectedItem)
      ensures order != old(sortMethod) ==> table.selectedItem == ""
      ensures order != old(sortMethod) ==>
                table.View() == T.Scrolled(old(table.View()), T.ToTop, |old(table.rows)|, table.innerDx, table.innerDy)
    {
      hide IsGrouping, Ordered, RowsOf, T.Scrolled;
      if sortMethod != order {
        sortMethod := order;
        table.ScrollTop();
        SortProcs();
        GroupingResorted(old(groupedProcs), old(ungroupedProcs), groupedProcs, ungroupedProcs);
        ConvertProcsToTableRows();
      }
    }

    method ToggleShowingGroupedProcs()
      requires Valid()
      modifies this`showGroupedProcs, this`groupedProcs, this`ungroupedProcs, table
      ensures Valid() && showGroupedProcs == !old(showGroupedProcs)
      ensures multiset(ungroupedProcs) == multiset(old(ungroupedProcs))
      ensures table.selectedItem == ""
      ensures table.View() == T.Scrolled(old(table.View()), T.ToTop, |old(table.rows)|, table.innerDx, table.innerDy)
    {
      hide IsGrouping, Ordered, RowsOf, T.Scrolled;
      showGroupedProcs := !showGroupedProcs;
      if showGroupedProcs {
        table.uniqueCol := 1;
      } else {
        table.uniqueCol := 0;
      }
      table.ScrollTop();
      SortProcs();
      GroupingResorted(old(groupedProcs), old(ungroupedProcs), groupedProcs, ungroupedProcs);
      ConvertProcsToTableRows();
    }

    /** Whatever is shown, drawing it puts the cursor on one row at most: that of the selected item,
        wherever the item is in the window, or without one that of the selected number. */
    method Draw() returns (printed: seq<int>, marked: seq<int>)
      requires Valid() && DistinctPids(ungroupedProcs) && PidsFit(ungroupedProcs)
      modifies table`selectedItem, table`selectedRow
      ensures Valid() && |marked| <= 1
      ensures table.topRow >= 0 ==>
                forall rowNum :: table.topRow <= rowNum < table.topRow + table.innerDy - 1 && rowNum < |table.rows| ==>
                  (rowNum in marked <==>
                     T.Marked(old(table.selectedItem), old(table.selectedRow), table.rows[rowNum], rowNum, table.uniqueCol))
      ensures marked != [] ==>
                && table.selectedRow == marked[0] && marked[0] in printed && 0 <= marked[0] < |table.rows|
                && table.selectedItem == table.rows[marked[0]][table.uniqueCol]
    {
      RowsIdentified(Shown(), showGroupedProcs, format);
      hide IsGrouping, Ordered, RowsOf;
      printed, marked := table.Draw();
    }
  }

  /** Loads are reported as shares of one CPU and shown as shares of all. */
  function PerCpu(procs: seq<Proc>, cpuCount: int): seq<Proc>
    requires cpuCount >= 1
  {
    if procs == [] then []
    else
      var last := procs[|procs| - 1];
      PerCpu(procs[..|procs| - 1], cpuCount) + [last.(cpu := last.cpu / cpuCount as real)]
  }

  /** As many such shares as there are CPUs make the load that was reported; nothing else changes. */
  lemma {:induction false} PerCpuShares(procs: seq<Proc>, cpuCount: int)
    requires cpuCount >= 1
    ensures |PerCpu(procs, cpuCount)| == |procs|
    ensures forall i :: 0 <= i < |procs| ==>
              var p := PerCpu(procs, cpuCount)[i];
              p.cpu * cpuCount as real == procs[i].cpu && p.(cpu := procs[i].cpu) == procs[i]
  {
    if procs != [] {
      PerCpuShares(procs[..|procs| - 1], cpuCount);
    }
  }

  method ScaleLoads(reported: seq<Proc>, cpuCount: int) returns (procs: seq<Proc>)
    requires cpuCount >= 1
    ensures procs == PerCpu(reported, cpuCount)
  {
    procs := [];
    for i := 0 to |reported|
      invariant procs == PerCpu(reported[..i], cpuCount)
    {
      assert reported[..i + 1][..i] == reported[..i];
      procs := procs + [reported[i].(cpu := reported[i].cpu / cpuCount as real)];
    }
    assert reported[..|reported|] == reported;
  }

  lemma GroupingResorted(groups: seq<Proc>, procs: seq<Proc>, newGroups: seq<Proc>, newProcs: seq<Proc>)
    requires IsGrouping(groups, procs)
    requires multiset(groups) == multiset(newGroups) && multiset(procs) == multiset(newProcs)
    ensures IsGrouping(newGroups, newProcs)
  {
    GroupingSorted(groups, newGroups, procs);
    GroupingOfPermutation(newGroups, procs, newProcs);
  }

  lemma GroupingOfPermutation(groups: seq<Proc>, procs: seq<Proc>, permuted: seq<Proc>)
    requires IsGrouping(groups, procs) && multiset(procs) == multiset(permuted)
    ensures IsGrouping(groups, permuted)
  {
    hide Group;
    forall p
      ensures p in procs <==> p in permuted
    {
      assert p in multiset(procs) <==> p in multiset(permuted);
    }
    assert Commands(procs) == Commands(permuted);
    forall i | 0 <= i < |groups|
      ensures groups[i] == Group(permuted, groups[i].commandName)
    {
      GroupOfPermutation(procs, permuted, groups[i].commandName);
    }
  }

  lemma {:induction false} GroupOfPermutation(procs: seq<Proc>, permuted: seq<Proc>, name: string)
    requires multiset(procs) == multiset(permuted)
    ensures Group(procs, name) == Group(permuted, name)
    decreases |procs|
  {
    hide Group;
    if procs == [] {
      assert |multiset(permuted)| == |permuted| == 0;
    } else {
      var front, last := procs[..|procs| - 1], procs[|procs| - 1];
      assert procs == front + [last];
      assert last in multiset(permuted);
      var k :| 0 <= k < |permuted| && permuted[k] == last;
      var a, b := permuted[..k], permuted[k + 1..];
      assert permuted == a + [last] + b;
      TakenOut(front, last, a, b);
      GroupOfPermutation(front, a + b, name);
      GroupsGrow(front, last);
      MoveToEnd(a, last, b, name);
      GroupsGrow(a + b, last);
    }
  }

  lemma TakenOut(front: seq<Proc>, last: Proc, a: seq<Proc>, b: seq<Proc>)
    requires multiset(front + [last]) == multiset(a + [last] + b)
    ensures multiset(front) == multiset(a + b)
  {
    assert multiset(front) == multiset(front + [last]) - multiset{last};
    assert multiset(a + b) == multiset(a + [last] + b) - multiset{last};
  }

  lemma {:induction false} MoveToEnd(a: seq<Proc>, p: Proc, b: seq<Proc>, name: string)
    ensures Group(a + [p] + b, name) == Group(a + b + [p], name)
    decreases |b|
  {
    hide Group;
    if b == [] {
      assert a + [p] + b == a + b + [p];
    } else {
      var front, last := b[..|b| - 1], b[|b| - 1];
      MoveToEnd(a, p, front, name);
      assert a + [p] + b == (a + [p] + front) + [last];
      assert a + b == (a + front) + [last];
      GroupsGrow(a + [p] + front, last);
      GroupsGrow(a + front + [p], last);
      GroupsGrow(a + front, p);
      GroupsGrow(a + front, last);
      GroupsGrow(a + b, p);
    }
  }
}
