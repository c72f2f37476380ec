/**
  The metric history of the monitor: six parallel series (cpu, ram, disk,
  memory, network and the time labels). Every tick appends one value to each
  series; once the cpu series holds more than `Capacity` values, the oldest
  value of every series is dropped.
 */
module RollingWindow {
  import opened Numbers

  /** Number of ticks the history retains. */
  const Capacity: nat := 50

  /** The values one tick appends, one per series. */
  datatype Sample = Sample(cpu: real, ram: real, disk: real, memory: real, network: real, time: string)

  /** The history: one series per metric plus the parallel series of time labels. */
  datatype History = History(
    cpu: seq<real>,
    ram: seq<real>,
    disk: seq<real>,
    memory: seq<real>,
    network: seq<real>,
    time: seq<string>)

  /** The history before the first tick. */
  const Empty := History([], [], [], [], [], [])

  /** All six series have the same length. */
  predicate Aligned(h: History) {
    && |h.ram| == |h.cpu|
    && |h.disk| == |h.cpu|
    && |h.memory| == |h.cpu|
    && |h.network| == |h.cpu|
    && |h.time| == |h.cpu|
  }

  /** The invariant the sampler keeps: aligned series, none longer than `Capacity`. */
  predicate WellFormed(h: History) {
    Aligned(h) && |h.cpu| <= Capacity
  }

  /** Each series with the sample's value appended. */
  function Append(h: History, s: Sample): History {
    History(h.cpu + [s.cpu], h.ram + [s.ram], h.disk + [s.disk],
            h.memory + [s.memory], h.network + [s.network], h.time + [s.time])
  }

  /** Each series with its first element popped. */
  function DropOldest(h: History): History
    requires |h.cpu| > 0 && |h.ram| > 0 && |h.disk| > 0
    requires |h.memory| > 0 && |h.network| > 0 && |h.time| > 0
  {
    History(h.cpu[1..], h.ram[1..], h.disk[1..], h.memory[1..], h.network[1..], h.time[1..])
  }

  /**
    One tick of the sampler's store: append to every series, then evict the
    head of every series when the cpu series exceeds the capacity. Only the
    cpu series is consulted for the eviction decision.
   */
  function Tick(h: History, s: Sample): (r: History)
    ensures Aligned(h) ==> Aligned(r)
    ensures |h.cpu| <= Capacity ==> |r.cpu| <= Capacity
    ensures WellFormed(h) ==> WellFormed(r) && |r.cpu| == Min(|h.cpu| + 1, Capacity)
    ensures Aligned(h) ==>
      && |r.cpu| > 0
      && r.cpu[|r.cpu| - 1] == s.cpu
      && r.ram[|r.ram| - 1] == s.ram
      && r.disk[|r.disk| - 1] == s.disk
      && r.memory[|r.memory| - 1] == s.memory
      && r.network[|r.network| - 1] == s.network
      && r.time[|r.time| - 1] == s.time
  {
    var grown := Append(h, s);
    if |grown.cpu| > Capacity then DropOldest(grown) else grown
  }

  /** Reference definition of what a series retains: the last `Capacity` values appended. */
  function Window<T>(xs: seq<T>): (w: seq<T>)
    ensures |w| == Min(|xs|, Capacity)
    ensures w == xs[|xs| - |w|..]
  {
    if |xs| <= Capacity then xs else xs[|xs| - Capacity..]
  }

  /** The history after the given samples are appended to the empty history, one tick each. */
  function Record(ss: seq<Sample>): (h: History)
    ensures WellFormed(h)
    ensures |h.cpu| == Min(|ss|, Capacity)
    ensures |ss| > 0 ==> h.cpu[|h.cpu| - 1] == ss[|ss| - 1].cpu
  {
    if |ss| == 0 then Empty else Tick(Record(ss[..|ss| - 1]), ss[|ss| - 1])
  }

  /** The series of one field over a sequence of samples, in append order. */
  function Project<U>(ss: seq<Sample>, f: Sample -> U): (p: seq<U>)
    ensures |p| == |ss|
    ensures forall i :: 0 <= i < |ss| ==> p[i] == f(ss[i])
  {
    seq(|ss|, i requires 0 <= i < |ss| => f(ss[i]))
  }

  function CpuOf(s: Sample): real { s.cpu }
  function RamOf(s: Sample): real { s.ram }
  function DiskOf(s: Sample): real { s.disk }
  function MemoryOf(s: Sample): real { s.memory }
  function NetworkOf(s: Sample): real { s.network }
  function TimeOf(s: Sample): string { s.time }

  /** Reference history: each series is the window of the values appended to it. */
  function Windowed(ss: seq<Sample>): History {
    History(
      Window(Project(ss, CpuOf)),
      Window(Project(ss, RamOf)),
      Window(Project(ss, DiskOf)),
      Window(Project(ss, MemoryOf)),
      Window(Project(ss, NetworkOf)),
      Window(Project(ss, TimeOf)))
  }

  lemma ProjectSnoc<U>(ss: seq<Sample>, s: Sample, f: Sample -> U)
    ensures Project(ss + [s], f) == Project(ss, f) + [f(s)]
  {
  }

  /** Appending to a window and evicting on overflow gives the window of the longer series. */
  lemma WindowSnoc<T>(xs: seq<T>, x: T)
    ensures |Window(xs) + [x]| > Capacity ==> Window(xs + [x]) == (Window(xs) + [x])[1..]
    ensures |Window(xs) + [x]| <= Capacity ==> Window(xs + [x]) == Window(xs) + [x]
  {
    if |xs| >= Capacity {
      assert (Window(xs) + [x])[1..] == (xs + [x])[|xs| + 1 - Capacity..];
    }
  }

  /**
    FIFO retention: after any sequence of ticks starting from the empty
    history, every series holds exactly the last `Capacity` values appended
    to it, in append order.
   */
  lemma {:induction false} RecordKeepsLastWindow(ss: seq<Sample>)
    ensures Record(ss) == Windowed(ss)
    ensures WellFormed(Record(ss))
    ensures |Record(ss).cpu| == Min(|ss|, Capacity)
  {
    if |ss| == 0 {
      assert Windowed(ss) == Empty;
    } else {
      var p, s := ss[..|ss| - 1], ss[|ss| - 1];
      assert ss == p + [s];
      RecordKeepsLastWindow(p);
      ProjectSnoc(p, s, CpuOf);
      ProjectSnoc(p, s, RamOf);
      ProjectSnoc(p, s, DiskOf);
      ProjectSnoc(p, s, MemoryOf);
      ProjectSnoc(p, s, NetworkOf);
      ProjectSnoc(p, s, TimeOf);
      WindowSnoc(Project(p, CpuOf), s.cpu);
      WindowSnoc(Project(p, RamOf), s.ram);
      WindowSnoc(Project(p, DiskOf), s.disk);
      WindowSnoc(Project(p, MemoryOf), s.memory);
      WindowSnoc(Project(p, NetworkOf), s.network);
      WindowSnoc(Project(p, TimeOf), s.time);
    }
  }

  /**
    Eviction on a full history removes exactly the oldest value of each
    series; below capacity nothing is removed.
   */
  lemma TickEvictsOldest(h: History, s: Sample)
    requires WellFormed(h)
    ensures |h.cpu| == Capacity ==>
      && Tick(h, s).cpu == h.cpu[1..] + [s.cpu]
      && Tick(h, s).ram == h.ram[1..] + [s.ram]
      && Tick(h, s).disk == h.disk[1..] + [s.disk]
      && Tick(h, s).memory == h.memory[1..] + [s.memory]
      && Tick(h, s).network == h.network[1..] + [s.network]
      && Tick(h, s).time == h.time[1..] + [s.time]
    ensures |h.cpu| < Capacity ==> Tick(h, s) == Append(h, s)
  {
    if |h.cpu| == Capacity {
      var grown := Append(h, s);
      assert Tick(h, s) == DropOldest(grown);
      assert grown.cpu[1..] == h.cpu[1..] + [s.cpu];
      assert grown.ram[1..] == h.ram[1..] + [s.ram];
      assert grown.disk[1..] == h.disk[1..] + [s.disk];
      assert grown.memory[1..] == h.memory[1..] + [s.memory];
      assert grown.network[1..] == h.network[1..] + [s.network];
      assert grown.time[1..] == h.time[1..] + [s.time];
    }
  }
}
