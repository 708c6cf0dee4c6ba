/** The rotating log of logging/logging.go, over a model of its directory. */
module Logging {
  import opened GoInt
  import opened Sequences

  type Bytes = seq<bv8>

  /** `errors.log` itself, and its backups `errors.log.0` to `errors.log.2`. */
  datatype Name = Log | Backup(n: int)

  type Files = map<Name, Bytes>

  /** The directory, and whether the writer holds the log open; if so it appends to it. */
  datatype Disk = Disk(files: Files, open: bool)

  /** Which operating system calls of one rotation fail. */
  datatype Faults = Faults(close: bool, renameOne: bool, renameZero: bool, renameLog: bool, open: bool)

  /** The writer has the log open only while it is there. */
  predicate Consistent(d: Disk) {
    d.open ==> Log in d.files
  }

  const NO_FAULTS := Faults(false, false, false, false, false)

  function Content(files: Files, name: Name): Bytes {
    if name in files then files[name] else []
  }

  /** Everything on disk, oldest first. */
  function History(files: Files): Bytes {
    Content(files, Backup(2)) + Content(files, Backup(1)) + Content(files, Backup(0)) + Content(files, Log)
  }

  function Renamed(files: Files, from: Name, to: Name): Files
    requires from in files
  {
    (files - {from})[to := files[from]]
  }

  /** Moves a backup one number up; a missing one is skipped. */
  function Shift(files: Files, i: int, fails: bool): (Files, bool) {
    if Backup(i) !in files then (files, true)
    else if fails then (files, false)
    else (Renamed(files, Backup(i), Backup(i + 1)), true)
  }

  /** What a rotation makes of the disk, and whether it succeeds. */
  function Rotate(d: Disk, f: Faults): (r: (Disk, bool))
    ensures Consistent(r.0) && r.1 == r.0.open
  {
    if d.open && f.close then (Disk(d.files, false), false)
    else
      var (one, ok1) := Shift(d.files, 1, f.renameOne);
      if !ok1 then (Disk(one, false), false)
      else
        var (zero, ok0) := Shift(one, 0, f.renameZero);
        if !ok0 then (Disk(zero, false), false)
        else if Log in zero && f.renameLog then (Disk(zero, false), false)
        else
          var moved := if Log in zero then Renamed(zero, Log, Backup(0)) else zero;
          if f.open then (Disk(moved, false), false) else (Disk(moved[Log := []], true), true)
  }

  /** A write of output, of which the operating system takes at most `limit` bytes. */
  function Write(d: Disk, maxLogSize: int, output: Bytes, limit: nat, f: Faults): (r: (Disk, nat))
    requires Consistent(d)
    ensures Consistent(r.0)
  {
    var r := if Log in d.files && |d.files[Log]| > maxLogSize then Rotate(d, f).0 else d;
    if !r.open then (r, 0)
    else
      var n := Min(|output|, limit);
      (Disk(r.files[Log := r.files[Log] + output[..n]], true), n)
  }

  // ---------------------------------------------------------------- the writer

  class RotateWriter {
    /** The directory the writer works in. */
    var files: Files
    /** `fp` is not nil. */
    var open: bool
    const maxLogSize: int

    ghost function View(): Disk
      reads this
    {
      Disk(files, open)
    }

    constructor (files: Files, maxLogSize: int)
      ensures View() == Disk(files, false) && this.maxLogSize == maxLogSize
    {
      this.files, this.open, this.maxLogSize := files, false, maxLogSize;
    }

    method Rename(from: Name, to: Name)
      requires from in files
      modifies this`files
      ensures files == Renamed(old(files), from, to)
    {
      files := (files - {from})[to := files[from]];
    }

    method RotateFiles(f: Faults) returns (ok: bool)
      modifies this
      ensures Consistent(View())
      ensures (View(), ok) == Rotate(old(View()), f)
    {
      if open {
        open := false;
        if f.close {
          return false;
        }
      }
      ghost var start := files;
      var i := 1;
      while i > -1
        invariant -1 <= i <= 1 && !open
        invariant files == if i == 1 then start
                           else if i == 0 then Shift(start, 1, f.renameOne).0
                           else Shift(Shift(start, 1, f.renameOne).0, 0, f.renameZero).0
        invariant i < 1 ==> Shift(start, 1, f.renameOne).1
        invariant i < 0 ==> Shift(Shift(start, 1, f.renameOne).0, 0, f.renameZero).1
      {
        if Backup(i) in files {
          if if i == 1 then f.renameOne else f.renameZero {
            return false;
          }
          Rename(Backup(i), Backup(i + 1));
        }
        i := i - 1;
      }
      if Log in files {
        if f.renameLog {
          return false;
        }
        Rename(Log, Backup(0));
      }
      if f.open {
        return false;
      }
      files := files[Log := []];
      open := true;
      return true;
    }

    method WriteBytes(output: Bytes, limit: nat, f: Faults) returns (n: nat)
      requires Consistent(View())
      modifies this
      ensures Consistent(View())
      ensures (View(), n) == Write(old(View()), maxLogSize, output, limit, f)
    {
      if Log in files {
        if |files[Log]| > maxLogSize {
          var ok := RotateFiles(f);
        }
      }
      if !open {
        return 0;
      }
      n := Min(|output|, limit);
      files := files[Log := files[Log] + output[..n]];
    }
  }

  // ---------------------------------------------------------------- history is kept

  /** Moving a backup up loses nothing but the backup it replaces. */
  lemma ShiftKeepsHistory(files: Files, i: int, fails: bool)
    requires i == 1 || (i == 0 && Backup(1) !in files)
    ensures var (after, ok) := Shift(files, i, fails);
            IsSuffix(History(after), History(files)) && (ok ==> Backup(i) !in after)
    ensures i == 0 ==> History(Shift(files, i, fails).0) == History(files)
  {
    hide History, IsSuffix, Renamed;
    SuffixOfItself(History(files));
    if Backup(i) in files && !fails {
      if i == 1 {
        OldestIsDropped(files);
      } else {
        NewestIsMoved(files);
      }
    }
  }

  lemma OldestIsDropped(files: Files)
    requires Backup(1) in files
    ensures var after := Renamed(files, Backup(1), Backup(2));
            IsSuffix(History(after), History(files)) && Backup(1) !in after
  {
    var a, rest := Content(files, Backup(2)), Content(files, Backup(1)) + Content(files, Backup(0)) + Content(files, Log);
    var after := Renamed(files, Backup(1), Backup(2));
    assert History(after) == rest;
    assert History(files) == a + rest;
  }

  lemma NewestIsMoved(files: Files)
    requires Backup(0) in files && Backup(1) !in files
    ensures var after := Renamed(files, Backup(0), Backup(1));
            History(after) == History(files) && Backup(0) !in after
  {
    var a, c, e := Content(files, Backup(2)), Content(files, Backup(0)), Content(files, Log);
    assert a + [] + c + e == a + c + [] + e;
  }

  lemma MoveLogKeepsHistory(files: Files)
    requires Log in files && Backup(0) !in files
    ensures History(Renamed(files, Log, Backup(0))) == History(files)
  {
  }

  lemma NewLogKeepsHistory(files: Files)
    requires Log !in files
    ensures History(files[Log := []]) == History(files)
  {
  }

  /** Whatever fails, a rotation only ever drops bytes from the old end. */
  lemma RotateKeepsHistory(d: Disk, f: Faults)
    ensures IsSuffix(History(Rotate(d, f).0.files), History(d.files))
  {
    hide History, IsSuffix, Shift, Renamed;
    SuffixOfItself(History(d.files));
    ShiftKeepsHistory(d.files, 1, f.renameOne);
    var one := Shift(d.files, 1, f.renameOne);
    if !(d.open && f.close) && one.1 {
      ShiftKeepsHistory(one.0, 0, f.renameZero);
      var zero := Shift(one.0, 0, f.renameZero);
      if zero.1 {
        LogStepsKeepHistory(zero.0);
      }
    }
  }

  lemma LogStepsKeepHistory(files: Files)
    requires Backup(0) !in files
    ensures var moved := if Log in files then Renamed(files, Log, Backup(0)) else files;
            History(moved) == History(files) && History(moved[Log := []]) == History(files)
  {
    if Log in files {
      MoveLogKeepsHistory(files);
    }
    NewLogKeepsHistory(if Log in files then Renamed(files, Log, Backup(0)) else files);
    hide History;
  }

  /** A write adds exactly the bytes it reports, at the new end. */
  lemma WriteKeepsHistory(d: Disk, maxLogSize: int, output: Bytes, limit: nat, f: Faults)
    requires Consistent(d)
    ensures var (after, n) := Write(d, maxLogSize, output, limit, f);
            n <= |output| && IsSuffix(History(after.files), History(d.files) + output[..n])
  {
    var r := if Log in d.files && |d.files[Log]| > maxLogSize then Rotate(d, f).0 else d;
    assert IsSuffix(History(r.files), History(d.files)) by {
      hide History;
      if r == d {
        SuffixOfItself(History(d.files));
      } else {
        RotateKeepsHistory(d, f);
      }
    }
    var (after, n) := Write(d, maxLogSize, output, limit, f);
    SuffixGrows(History(r.files), History(d.files), output[..n]);
    assert History(after.files) == History(r.files) + output[..n] by {
      if r.open {
        AppendExtendsHistory(r.files, output[..n]);
      } else {
        assert output[..0] == [];
      }
    }
  }

  lemma AppendExtendsHistory(files: Files, more: Bytes)
    requires Log in files
    ensures History(files[Log := files[Log] + more]) == History(files) + more
  {
  }

  // ---------------------------------------------------------------- whole runs

  /** A call to the writer: a write, or the rotation with which `New` starts. */
  datatype Op = WriteOp(output: Bytes, limit: nat, faults: Faults) | RotateOp(faults: Faults)

  /** The disk, and what the writer has written so far. */
  datatype Progress = Progress(disk: Disk, written: Bytes)

  function Step(p: Progress, maxLogSize: int, op: Op): (r: Progress)
    requires Consistent(p.disk)
    ensures Consistent(r.disk)
  {
    match op
    case WriteOp(output, limit, f) =>
      var (after, n) := Write(p.disk, maxLogSize, output, limit, f);
      Progress(after, p.written + output[..Min(n, |output|)])
    case RotateOp(f) => p.(disk := Rotate(p.disk, f).0)
  }

  function Run(start: Disk, maxLogSize: int, ops: seq<Op>): (r: Progress)
    requires Consistent(start)
    ensures Consistent(r.disk)
  {
    if ops == [] then Progress(start, [])
    else Step(Run(start, maxLogSize, ops[..|ops| - 1]), maxLogSize, ops[|ops| - 1])
  }

  /** After any run, whatever failed in it, the files hold a suffix of what was there and what has
      been written since: in order, and without a gap. */
  lemma {:induction false} HistoryIsKept(start: Disk, maxLogSize: int, ops: seq<Op>)
    requires Consistent(start)
    ensures var p := Run(start, maxLogSize, ops);
            IsSuffix(History(p.disk.files), History(start.files) + p.written)
  {
    hide History, IsSuffix, Write, Rotate;
    var all := History(start.files);
    if ops == [] {
      assert all + [] == all;
      SuffixOfItself(all);
    } else {
      var front, last := Run(start, maxLogSize, ops[..|ops| - 1]), ops[|ops| - 1];
      HistoryIsKept(start, maxLogSize, ops[..|ops| - 1]);
      match last
      case WriteOp(output, limit, f) =>
        WriteKeepsHistory(front.disk, maxLogSize, output, limit, f);
        var (after, n) := Write(front.disk, maxLogSize, output, limit, f);
        SuffixGrows(History(front.disk.files), all + front.written, output[..n]);
        SuffixTransitive(History(after.files), History(front.disk.files) + output[..n], all + front.written + output[..n]);
        assert all + front.written + output[..n] == all + (front.written + output[..n]);
      case RotateOp(f) =>
        RotateKeepsHistory(front.disk, f);
        SuffixTransitive(History(Rotate(front.disk, f).0.files), History(front.disk.files), all + front.written);
    }
  }

  // ---------------------------------------------------------------- sizes and numbers of files

  /** At most four files, none longer than the bound. */
  predicate Within(files: Files, bound: int) {
    && files.Keys <= {Log, Backup(0), Backup(1), Backup(2)}
    && forall name :: name in files ==> |files[name]| <= bound
  }

  lemma RotateWithin(d: Disk, f: Faults, bound: int)
    requires Within(d.files, bound) && bound >= 0
    ensures Within(Rotate(d, f).0.files, bound)
  {
  }

  lemma AtMostFour(files: Files, bound: int)
    requires Within(files, bound)
    ensures |files| <= 4
  {
    var names := {Log, Backup(0), Backup(1), Backup(2)};
    Fewer(files.Keys, names);
  }

  lemma Fewer<T>(a: set<T>, b: set<T>)
    requires a <= b
    ensures |a| <= |b|
  {
    if a != {} {
      var x :| x in a;
      Fewer(a - {x}, b - {x});
    }
  }

  /** A directory with at most four files stays one, and no file grows past the size limit by more
      than the longest write. */
  lemma {:induction false} FilesStayBounded(start: Disk, maxLogSize: int, ops: seq<Op>, longest: nat, bound: int)
    requires Consistent(start) && Within(start.files, bound) && bound >= Max(maxLogSize, 0) + longest
    requires forall i :: 0 <= i < |ops| && ops[i].WriteOp? ==> |ops[i].output| <= longest
    ensures var files := Run(start, maxLogSize, ops).disk.files; Within(files, bound) && |files| <= 4
  {
    hide Within, Rotate;
    if ops != [] {
      var front, last := Run(start, maxLogSize, ops[..|ops| - 1]), ops[|ops| - 1];
      FilesStayBounded(start, maxLogSize, ops[..|ops| - 1], longest, bound);
      match last
      case WriteOp(output, limit, f) => WriteWithin(front.disk, maxLogSize, output, limit, f, longest, bound);
      case RotateOp(f) => RotateWithin(front.disk, f, bound);
    }
    AtMostFour(Run(start, maxLogSize, ops).disk.files, bound);
  }

  lemma WriteWithin(d: Disk, maxLogSize: int, output: Bytes, limit: nat, f: Faults, longest: nat, bound: int)
    requires Consistent(d) && Within(d.files, bound) && bound >= Max(maxLogSize, 0) + longest && |output| <= longest
    ensures Within(Write(d, maxLogSize, output, limit, f).0.files, bound)
  {
    RotateWithin(d, f, bound);
    RotatedLogIsEmpty(d, f);
    hide Rotate;
  }

  lemma RotatedLogIsEmpty(d: Disk, f: Faults)
    ensures var after := Rotate(d, f).0; after.open ==> Content(after.files, Log) == []
  {
  }

  // ---------------------------------------------------------------- what is retained

  /** Nothing has been dropped yet, or three backups are full. */
  ghost predicate Retains(files: Files, maxLogSize: int, total: int) {
    && (Backup(1) in files ==> Backup(0) in files)
    && (Backup(2) in files ==> Backup(1) in files)
    && (forall i :: Backup(i) in files ==> |files[Backup(i)]| > maxLogSize)
    && (|History(files)| == total || (Backup(2) in files && |History(files)| <= total))
  }

  lemma RotateRetains(d: Disk, maxLogSize: int, total: int)
    requires Retains(d.files, maxLogSize, total) && Log in d.files && |d.files[Log]| > maxLogSize
    ensures var r := Rotate(d, NO_FAULTS); r.1 && Retains(r.0.files, maxLogSize, total)
  {
  }

  predicate Faultless(ops: seq<Op>) {
    forall i :: 0 <= i < |ops| ==> ops[i].WriteOp? && ops[i].faults == NO_FAULTS && |ops[i].output| <= ops[i].limit
  }

  /** The writer of a new log directory, once `New` has opened it. */
  function Fresh(): (d: Disk)
    ensures d == Rotate(Disk(map[], false), NO_FAULTS).0
  {
    Disk(map[Log := []], true)
  }

  lemma {:induction false} RunRetains(maxLogSize: int, ops: seq<Op>)
    requires Faultless(ops)
    ensures var p := Run(Fresh(), maxLogSize, ops);
            p.disk.open && Retains(p.disk.files, maxLogSize, |p.written|)
    ensures var p := Run(Fresh(), maxLogSize, ops);
            |p.written| == TotalLength(ops)
  {
    hide Retains, Rotate, History;
    if ops == [] {
      FreshRetains(maxLogSize);
    } else {
      var front, last := Run(Fresh(), maxLogSize, ops[..|ops| - 1]), ops[|ops| - 1];
      RunRetains(maxLogSize, ops[..|ops| - 1]);
      WriteRetains(front.disk, maxLogSize, last.output, last.limit, |front.written|);
    }
  }

  lemma FreshRetains(maxLogSize: int)
    ensures Retains(Fresh().files, maxLogSize, 0)
  {
  }

  lemma WriteRetains(d: Disk, maxLogSize: int, output: Bytes, limit: nat, total: int)
    requires Consistent(d) && d.open && Retains(d.files, maxLogSize, total) && |output| <= limit
    ensures var (after, n) := Write(d, maxLogSize, output, limit, NO_FAULTS);
            n == |output| && after.open && Retains(after.files, maxLogSize, total + n)
  {
    var r := if |d.files[Log]| > maxLogSize then Rotate(d, NO_FAULTS).0 else d;
    hide Rotate;
    if |d.files[Log]| > maxLogSize {
      RotateRetains(d, maxLogSize, total);
    }
    assert r.open;
    assert output[..|output|] == output;
    AppendExtendsHistory(r.files, output);
    hide History;
  }

  // ---------------------------------------------------------------- a log that is gone

  /** A rotation with all files there stops at the first call that fails, with the moves before it done and no
      log open; the oldest backup is gone as soon as the next one takes its place. */
  lemma StopsAtFirstFailure(d: Disk, f: Faults)
    requires d.open && Log in d.files && Backup(0) in d.files && Backup(1) in d.files
    ensures var log, zero, one := d.files[Log], d.files[Backup(0)], d.files[Backup(1)];
            var others := d.files - {Log, Backup(0), Backup(1), Backup(2)};
            Rotate(d, f) ==
              if f.close || f.renameOne then (Disk(d.files, false), false)
              else if f.renameZero then (Disk(others[Backup(2) := one][Backup(0) := zero][Log := log], false), false)
              else if f.renameLog then (Disk(others[Backup(2) := one][Backup(1) := zero][Log := log], false), false)
              else if f.open then
                (Disk(others[Backup(2) := one][Backup(1) := zero][Backup(0) := log], false), false)
              else (Disk(others[Backup(2) := one][Backup(1) := zero][Backup(0) := log][Log := []], true), true)
  {
    var others := d.files - {Log, Backup(0), Backup(1), Backup(2)};
    var log, zero, one := d.files[Log], d.files[Backup(0)], d.files[Backup(1)];
    var first := others[Backup(2) := one][Backup(0) := zero][Log := log];
    var second := others[Backup(2) := one][Backup(1) := zero][Log := log];
    assert Renamed(d.files, Backup(1), Backup(2)) == first;
    assert Renamed(first, Backup(0), Backup(1)) == second;
    assert Renamed(second, Log, Backup(0)) == others[Backup(2) := one][Backup(1) := zero][Backup(0) := log];
    hide Renamed;
  }

  /** If all of a rotation works but the opening of the new log, there is no log left, and none is open. */
  lemma FailedOpenLosesLog(d: Disk)
    ensures var after := Rotate(d, NO_FAULTS.(open := true)).0; !after.open && Log !in after.files
  {
  }

  /** Without failures a write is taken whole exactly if the log is open, or is there and too long; a
      closed log that is not too long is never opened again. */
  lemma WrittenIffOpenOrFull(d: Disk, maxLogSize: int, output: Bytes, limit: nat)
    requires Consistent(d) && output != [] && |output| <= limit
    ensures var (after, n) := Write(d, maxLogSize, output, limit, NO_FAULTS);
            && (n == |output| <==> d.open || (Log in d.files && |d.files[Log]| > maxLogSize))
            && (n != |output| ==> n == 0 && after == d)
  {
    hide Shift;
    if Log in d.files && |d.files[Log]| > maxLogSize {
      FaultlessRotationOpens(d);
    }
    hide Rotate;
  }

  lemma FaultlessRotationOpens(d: Disk)
    ensures Rotate(d, NO_FAULTS).0.open
  {
  }

  /** Once the log is gone, no run of writes writes anything any more, whatever works from then on. */
  lemma {:induction false} NothingWrittenOnceGone(start: Disk, maxLogSize: int, ops: seq<Op>)
    requires !start.open && Log !in start.files && forall i :: 0 <= i < |ops| ==> ops[i].WriteOp?
    ensures Run(start, maxLogSize, ops) == Progress(start, [])
  {
    hide Rotate;
    if ops != [] {
      NothingWrittenOnceGone(start, maxLogSize, ops[..|ops| - 1]);
    }
  }

  function TotalLength(ops: seq<Op>): nat {
    if ops == [] then 0
    else TotalLength(ops[..|ops| - 1]) + if ops[|ops| - 1].WriteOp? then |ops[|ops| - 1].output| else 0
  }

  /** In a new directory and without failures, everything is written, and the last of it is always
      on disk: all of it, or at least three times the size limit. */
  lemma Retention(maxLogSize: int, ops: seq<Op>)
    requires Faultless(ops)
    ensures var p := Run(Fresh(), maxLogSize, ops);
            && |p.written| == TotalLength(ops)
            && IsSuffix(History(p.disk.files), p.written)
            && |History(p.disk.files)| >= Min(|p.written|, 3 * (maxLogSize + 1))
  {
    RunRetains(maxLogSize, ops);
    HistoryIsKept(Fresh(), maxLogSize, ops);
    var p := Run(Fresh(), maxLogSize, ops);
    assert [] + p.written == p.written;
  }
}
