/**
  The values the dashboard's refresh callback reads from the history for its
  gauges: the most recent value of a series, or 0 while the series is empty.
 */
module Dashboard {
  import opened RollingWindow
  import opened NetworkRate
  import opened Sampling

  /** The four gauges: cpu, ram, disk and network. */
  datatype Gauges = Gauges(cpu: real, ram: real, disk: real, network: real)

  /** The gauges before anything has been sampled. */
  const Idle := Gauges(0.0, 0.0, 0.0, 0.0)

  /** The last value of a series, or 0 for an empty series. */
  function LatestOrZero(xs: seq<real>): (v: real)
    ensures |xs| == 0 ==> v == 0.0
    ensures |xs| > 0 ==> v == xs[|xs| - 1]
  {
    if |xs| > 0 then xs[|xs| - 1] else 0.0
  }

  /** The gauge values shown for a history. */
  function ReadGauges(h: History): (g: Gauges)
    ensures Aligned(h) && |h.cpu| == 0 ==> g == Idle
    ensures Aligned(h) && |h.cpu| > 0 ==>
      var last := |h.cpu| - 1;
      g == Gauges(h.cpu[last], h.ram[last], h.disk[last], h.network[last])
  {
    Gauges(LatestOrZero(h.cpu), LatestOrZero(h.ram), LatestOrZero(h.disk), LatestOrZero(h.network))
  }

  /**
    After any number of sampling iterations the gauges show the last
    reading's cpu, ram and disk usage and the last computed throughput; before
    the first iteration completes they all show 0.
   */
  lemma {:induction false} GaugesShowLastReading(rs: seq<Reading>)
    ensures |rs| == 0 ==> ReadGauges(Run(rs).history) == Idle
    ensures |rs| > 0 ==>
      var last := rs[|rs| - 1];
      ReadGauges(Run(rs).history) == Gauges(last.cpu, last.ram, last.disk, Rates(Nets(rs))[|rs| - 1])
  {
    if |rs| > 0 {
      var p, last := rs[..|rs| - 1], rs[|rs| - 1];
      var m := Measure(Run(p).prev, last.net);
      GaugesFollowTick(Run(p).history, Sample(last.cpu, last.ram, last.disk, last.memory, m.kbps, last.clock));
    }
  }

  /**
    A tick never leaves the gauges stale: on an aligned history the gauges
    read right after the tick are the values the tick appended.
   */
  lemma GaugesFollowTick(h: History, s: Sample)
    requires Aligned(h)
    ensures ReadGauges(Tick(h, s)) == Gauges(s.cpu, s.ram, s.disk, s.network)
  {
  }
}
