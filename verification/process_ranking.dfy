/**
  The process table: every enumerated process either yields a record or a
  read failure; failures are skipped, each surviving process gets its
  derived disk, description and architecture fields, and the records are
  stably sorted by cpu usage, highest first, and cut to the first twenty.
 */
module ProcessRanking {
  import opened Numbers

  /** How many rows the table shows. */
  const TopCount: nat := 20

  /** Bytes per megabyte used for the disk column. */
  const BytesPerMegabyte: real := 1048576.0

  datatype Option<T> = None | Some(value: T)

  /** Cumulative I/O byte counters of one process. */
  datatype IoCounters = IoCounters(readBytes: nat, writeBytes: nat)

  /**
    The attributes read for one process. An absent executable path and
    absent I/O counters are `None`.
   */
  datatype ProcessInfo = ProcessInfo(
    pid: int,
    name: string,
    cpuPercent: real,
    memoryPercent: real,
    io: Option<IoCounters>,
    status: string,
    username: string,
    exe: Option<string>)

  /** The exceptions the enumeration loop catches and skips. */
  datatype ReadFailure = NoSuchProcess | AccessDenied | ZombieProcess | OsError

  /** One step of the enumeration: a process read, or a caught failure. */
  datatype ProcessRead = Read(info: ProcessInfo) | Failed(failure: ReadFailure)

  /**
    The two host queries made per process: whether a path exists, and the
    bitness string the platform reports for an executable.
   */
  datatype Host = Host(pathExists: string -> bool, bitness: string -> string)

  /** One row of the table. */
  datatype ProcessRecord = ProcessRecord(
    pid: int,
    name: string,
    cpu: real,
    memory: real,
    disk: real,
    status: string,
    username: string,
    description: string,
    architecture: string)

  /** `pat` occurs in `s` starting at position `i`. */
  predicate OccursAt(s: string, pat: string, i: int) {
    0 <= i && i + |pat| <= |s| && s[i..i + |pat|] == pat
  }

  /** An occurrence past the first position is an occurrence in the tail, one position earlier. */
  lemma OccursShift(s: string, pat: string, i: int)
    requires |s| > 0 && i > 0
    ensures OccursAt(s, pat, i) <==> OccursAt(s[1..], pat, i - 1)
  {
    if i + |pat| <= |s| {
      assert s[1..][i - 1..i - 1 + |pat|] == s[i..i + |pat|];
    }
  }

  /** True when `pat` occurs in `s` (the `in` test on strings), scanning from the left. */
  predicate Contains(s: string, pat: string): (b: bool)
    ensures b <==> exists i :: 0 <= i <= |s| - |pat| && OccursAt(s, pat, i)
  {
    var here := |pat| <= |s| && s[..|pat|] == pat;
    var later := |s| > 0 && Contains(s[1..], pat);
    assert here ==> OccursAt(s, pat, 0);
    assert later ==> exists i :: 0 <= i <= |s| - |pat| && OccursAt(s, pat, i) by {
      if later {
        var j :| 0 <= j <= |s[1..]| - |pat| && OccursAt(s[1..], pat, j);
        OccursShift(s, pat, j + 1);
      }
    }
    assert (exists i :: 0 <= i <= |s| - |pat| && OccursAt(s, pat, i)) ==> here || later by {
      if exists i :: 0 <= i <= |s| - |pat| && OccursAt(s, pat, i) {
        var i :| 0 <= i <= |s| - |pat| && OccursAt(s, pat, i);
        if i > 0 {
          OccursShift(s, pat, i);
        }
      }
    }
    here || later
  }

  /**
    Python truthiness of the executable path: `None` and the empty string
    both count as no path.
   */
  predicate HasPath(exe: Option<string>): (b: bool)
    ensures b <==> exe.Some? && |exe.value| > 0
  {
    exe.Some? && exe.value != ""
  }

  /** Megabytes read and written, or 0 when there are no I/O counters. */
  function DiskMegabytes(io: Option<IoCounters>): (mb: real)
    ensures io.None? ==> mb == 0.0
    ensures io.Some? ==> mb * BytesPerMegabyte == (io.value.readBytes + io.value.writeBytes) as real
    ensures mb >= 0.0
  {
    match io
    case None => 0.0
    case Some(c) => (c.readBytes + c.writeBytes) as real / BytesPerMegabyte
  }

  /** The architecture column: probed only for a path that exists. */
  function Architecture(exe: Option<string>, host: Host): (arch: string)
    ensures arch == "Unknown" <==> !(HasPath(exe) && host.pathExists(exe.value))
    ensures arch == "x64" <==>
      HasPath(exe) && host.pathExists(exe.value) && Contains(host.bitness(exe.value), "64")
    ensures arch == "x86" <==>
      HasPath(exe) && host.pathExists(exe.value) && !Contains(host.bitness(exe.value), "64")
  {
    if HasPath(exe) && host.pathExists(exe.value) then
      (if Contains(host.bitness(exe.value), "64") then "x64" else "x86")
    else
      "Unknown"
  }

  /** The row built for one successfully read process. */
  function Derive(info: ProcessInfo, host: Host): (p: ProcessRecord)
    ensures p.pid == info.pid && p.name == info.name
    ensures p.cpu == info.cpuPercent && p.memory == info.memoryPercent
    ensures p.status == info.status && p.username == info.username
    ensures info.io.None? ==> p.disk == 0.0
    ensures !HasPath(info.exe) ==> p.description == "N/A" && p.architecture == "Unknown"
    ensures HasPath(info.exe) ==> p.description == info.exe.value
    ensures p.architecture in {"x64", "x86", "Unknown"}
    ensures p.disk == DiskMegabytes(info.io) && p.architecture == Architecture(info.exe, host)
  {
    ProcessRecord(
      info.pid, info.name, info.cpuPercent, info.memoryPercent,
      DiskMegabytes(info.io), info.status, info.username,
      if HasPath(info.exe) then info.exe.value else "N/A",
      Architecture(info.exe, host))
  }

  /** The rows of the processes whose read succeeded, in enumeration order. */
  function Kept(scan: seq<ProcessRead>, host: Host): (procs: seq<ProcessRecord>)
    ensures |procs| <= |scan|
    ensures forall p :: p in procs ==>
      exists i :: 0 <= i < |scan| && scan[i].Read? && p == Derive(scan[i].info, host)
  {
    if |scan| == 0 then
      []
    else
      var rest := Kept(scan[1..], host);
      assert forall p :: p in rest ==>
        exists i :: 1 <= i < |scan| && scan[i].Read? && p == Derive(scan[i].info, host) by {
        forall p | p in rest
          ensures exists i :: 1 <= i < |scan| && scan[i].Read? && p == Derive(scan[i].info, host)
        {
          var j :| 0 <= j < |scan[1..]| && scan[1..][j].Read? && p == Derive(scan[1..][j].info, host);
          assert scan[j + 1] == scan[1..][j];
        }
      }
      match scan[0]
      case Read(info) => [Derive(info, host)] + rest
      case Failed(_) => rest
  }

  /** Skipping is local: the rows of two enumerations run back to back are the rows of each. */
  lemma {:induction false} KeptAppend(a: seq<ProcessRead>, b: seq<ProcessRead>, host: Host)
    ensures Kept(a + b, host) == Kept(a, host) + Kept(b, host)
  {
    if |a| > 0 {
      assert (a + b)[0] == a[0];
      assert (a + b)[1..] == a[1..] + b;
      KeptAppend(a[1..], b, host);
    } else {
      assert a + b == b;
    }
  }

  /** How many reads in the enumeration succeeded. */
  function CountReads(scan: seq<ProcessRead>): nat {
    if |scan| == 0 then 0 else (if scan[0].Read? then 1 else 0) + CountReads(scan[1..])
  }

  /** There is exactly one row per successful read. */
  lemma {:induction false} KeptCount(scan: seq<ProcessRead>, host: Host)
    ensures |Kept(scan, host)| == CountReads(scan)
  {
    if |scan| > 0 {
      KeptCount(scan[1..], host);
    }
  }

  /** When no read fails, there is one row per process, each derived from that process. */
  lemma {:induction false} KeptWithoutFailures(scan: seq<ProcessRead>, host: Host)
    requires forall i :: 0 <= i < |scan| ==> scan[i].Read?
    ensures |Kept(scan, host)| == |scan|
    ensures forall i :: 0 <= i < |scan| ==> Kept(scan, host)[i] == Derive(scan[i].info, host)
  {
    if |scan| > 0 {
      KeptWithoutFailures(scan[1..], host);
    }
  }

  /** A failing process is omitted and leaves every other row, and their order, as it was. */
  lemma FailureIsSkipped(before: seq<ProcessRead>, f: ReadFailure, after: seq<ProcessRead>, host: Host)
    ensures Kept(before + [Failed(f)] + after, host) == Kept(before + after, host)
  {
    KeptAppend(before + [Failed(f)], after, host);
    KeptAppend(before, [Failed(f)], host);
    KeptAppend(before, after, host);
    assert Kept([Failed(f)], host) == [];
  }

  /** Ordered by cpu usage, highest first. */
  predicate Descending(s: seq<ProcessRecord>) {
    forall i, j :: 0 <= i < j < |s| ==> s[i].cpu >= s[j].cpu
  }

  /**
    Inserts `x` before the first row whose cpu usage is not above its own, so
    that `x` precedes the rows of equal usage (it was enumerated before them).
   */
  function Insert(x: ProcessRecord, s: seq<ProcessRecord>): (r: seq<ProcessRecord>)
    ensures |r| == |s| + 1
    ensures multiset(r) == multiset(s) + multiset{x}
    ensures r[0] == x || (|s| > 0 && r[0] == s[0])
    ensures Descending(s) ==> Descending(r)
  {
    if |s| == 0 then
      [x]
    else if s[0].cpu <= x.cpu then
      [x] + s
    else
      var rest := Insert(x, s[1..]);
      InsertBehindHeadFacts(x, s, rest);
      [s[0]] + rest
  }

  /**
    The step of `Insert` when `x` goes behind the head of `s`: given what
    inserting `x` into the tail produced, putting the head back in front
    adds exactly `x` and keeps a descending sequence descending.
   */
  lemma InsertBehindHeadFacts(x: ProcessRecord, s: seq<ProcessRecord>, rest: seq<ProcessRecord>)
    requires |s| > 0 && s[0].cpu > x.cpu
    requires |rest| > 0 && multiset(rest) == multiset(s[1..]) + multiset{x}
    requires rest[0] == x || (|s| > 1 && rest[0] == s[1])
    requires Descending(s[1..]) ==> Descending(rest)
    ensures multiset([s[0]] + rest) == multiset(s) + multiset{x}
    ensures Descending(s) ==> Descending([s[0]] + rest)
  {
    assert s == [s[0]] + s[1..];
    assert multiset([s[0]] + rest) == multiset{s[0]} + multiset(rest);
    if Descending(s) {
      assert Descending(s[1..]) by {
        forall i, j | 0 <= i < j < |s[1..]|
          ensures s[1..][i].cpu >= s[1..][j].cpu
        {
          assert s[1..][i] == s[i + 1] && s[1..][j] == s[j + 1];
        }
      }
      assert rest[0].cpu <= s[0].cpu;
      DescendingCons(s[0], rest);
    }
  }

  /** A row no lower than the head of a descending sequence can go in front of it. */
  lemma DescendingCons(y: ProcessRecord, s: seq<ProcessRecord>)
    requires Descending(s)
    requires |s| > 0 ==> y.cpu >= s[0].cpu
    ensures Descending([y] + s)
  {
    var r := [y] + s;
    forall i, j | 0 <= i < j < |r|
      ensures r[i].cpu >= r[j].cpu
    {
      if i == 0 {
        assert r[j] == s[j - 1];
        assert s[0].cpu >= s[j - 1].cpu;
      } else {
        assert r[i] == s[i - 1] && r[j] == s[j - 1];
      }
    }
  }

  /** The stable descending sort by cpu usage (sorted with `reverse=True`). */
  function SortByCpu(s: seq<ProcessRecord>): (r: seq<ProcessRecord>)
    ensures |r| == |s|
    ensures multiset(r) == multiset(s)
    ensures Descending(r)
  {
    if |s| == 0 then
      []
    else
      assert s == [s[0]] + s[1..];
      Insert(s[0], SortByCpu(s[1..]))
  }

  /** The rows whose cpu usage equals `k`, in their order in `s`. */
  function WithCpu(k: real, s: seq<ProcessRecord>): seq<ProcessRecord> {
    if |s| == 0 then []
    else (if s[0].cpu == k then [s[0]] else []) + WithCpu(k, s[1..])
  }

  lemma WithCpuCons(k: real, y: ProcessRecord, s: seq<ProcessRecord>)
    ensures WithCpu(k, [y] + s) == (if y.cpu == k then [y] else []) + WithCpu(k, s)
  {
    assert ([y] + s)[0] == y && ([y] + s)[1..] == s;
  }

  /** How `Insert` unfolds on a non-empty sequence whose head is above the inserted row. */
  lemma InsertBehindHead(x: ProcessRecord, s: seq<ProcessRecord>)
    requires |s| > 0 && s[0].cpu > x.cpu
    ensures Insert(x, s) == [s[0]] + Insert(x, s[1..])
  {
  }

  /** How `Insert` unfolds when the inserted row goes in front. */
  lemma InsertInFront(x: ProcessRecord, s: seq<ProcessRecord>)
    requires |s| == 0 || s[0].cpu <= x.cpu
    ensures Insert(x, s) == [x] + s
  {
  }

  /**
    The step of `WithCpuInsert` when `x` goes behind the head of `s`: putting
    a row that is strictly above `x` in front preserves the equation.
   */
  lemma WithCpuBehindHead(k: real, x: ProcessRecord, s: seq<ProcessRecord>, rest: seq<ProcessRecord>)
    requires |s| > 0 && s[0].cpu > x.cpu
    requires WithCpu(k, rest) == (if x.cpu == k then [x] else []) + WithCpu(k, s[1..])
    ensures WithCpu(k, [s[0]] + rest) == (if x.cpu == k then [x] else []) + WithCpu(k, s)
  {
    WithCpuCons(k, s[0], rest);
    assert s == [s[0]] + s[1..];
    WithCpuCons(k, s[0], s[1..]);
    if x.cpu == k {
      // the head is strictly above `x`, so it is not among the rows with usage k
      assert s[0].cpu != k;
    }
  }

  lemma {:induction false} WithCpuInsert(k: real, x: ProcessRecord, s: seq<ProcessRecord>)
    ensures WithCpu(k, Insert(x, s)) == (if x.cpu == k then [x] else []) + WithCpu(k, s)
  {
    if |s| > 0 && s[0].cpu > x.cpu {
      WithCpuInsert(k, x, s[1..]);
      InsertBehindHead(x, s);
      WithCpuBehindHead(k, x, s, Insert(x, s[1..]));
    } else {
      InsertInFront(x, s);
      WithCpuCons(k, x, s);
    }
  }

  /**
    Stability: among rows of equal cpu usage the sort keeps enumeration
    order, for every usage value.
   */
  lemma {:induction false} SortIsStable(k: real, s: seq<ProcessRecord>)
    ensures WithCpu(k, SortByCpu(s)) == WithCpu(k, s)
  {
    if |s| > 0 {
      SortIsStable(k, s[1..]);
      WithCpuInsert(k, s[0], SortByCpu(s[1..]));
    }
  }

  /** The rows of equal usage in a prefix are a prefix of those in the whole sequence. */
  lemma {:induction false} WithCpuPrefix(k: real, s: seq<ProcessRecord>, n: nat)
    requires n <= |s|
    ensures WithCpu(k, s[..n]) <= WithCpu(k, s)
  {
    if n > 0 {
      assert s[..n][1..] == s[1..][..n - 1];
      WithCpuPrefix(k, s[1..], n - 1);
    }
  }

  /** Sort every row, then keep the first `TopCount`. */
  function Rank(procs: seq<ProcessRecord>): (top: seq<ProcessRecord>)
    ensures |top| == Min(TopCount, |procs|)
    ensures Descending(top)
    ensures top <= SortByCpu(procs)
    ensures multiset(top) <= multiset(procs)
    ensures forall i, j :: 0 <= i < |top| <= j < |procs| ==> top[i].cpu >= SortByCpu(procs)[j].cpu
  {
    var sorted := SortByCpu(procs);
    var top := sorted[..Min(TopCount, |procs|)];
    assert sorted == top + sorted[|top|..];
    assert multiset(sorted) == multiset(top) + multiset(sorted[|top|..]);
    top
  }

  /** Rows of equal cpu usage in the table appear in enumeration order. */
  lemma RankIsStable(k: real, procs: seq<ProcessRecord>)
    ensures WithCpu(k, Rank(procs)) <= WithCpu(k, procs)
  {
    var sorted := SortByCpu(procs);
    WithCpuPrefix(k, sorted, |Rank(procs)|);
    assert Rank(procs) == sorted[..|Rank(procs)|];
    SortIsStable(k, procs);
  }

  /** The table the dashboard shows for one enumeration of the processes. */
  function TopProcesses(scan: seq<ProcessRead>, host: Host): (top: seq<ProcessRecord>)
    ensures |top| == Min(TopCount, |Kept(scan, host)|)
    ensures |top| == Min(TopCount, CountReads(scan))
    ensures Descending(top)
    ensures top <= SortByCpu(Kept(scan, host))
    ensures forall p :: p in top ==>
      exists i :: 0 <= i < |scan| && scan[i].Read? && p == Derive(scan[i].info, host)
  {
    var procs := Kept(scan, host);
    var top := Rank(procs);
    KeptCount(scan, host);
    assert forall p :: p in top ==> p in procs by {
      forall p | p in top ensures p in procs {
        assert p in multiset(top);
      }
    }
    top
  }

  /** A failing process does not change the table. */
  lemma TopIgnoresFailure(before: seq<ProcessRead>, f: ReadFailure, after: seq<ProcessRead>, host: Host)
    ensures TopProcesses(before + [Failed(f)] + after, host) == TopProcesses(before + after, host)
  {
    FailureIsSkipped(before, f, after, host);
  }
}
