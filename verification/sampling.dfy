/**
  The body of the background sampling loop: one reading of the host per
  tick, a throughput computed from the network counters, and one value
  appended to every series of the history.
 */
module Sampling {
  import opened Numbers
  import opened RollingWindow
  import opened NetworkRate

  /**
    What one iteration reads from the host: cpu, ram, disk and swap usage,
    the cumulative network counters and the clock label.
   */
  datatype Reading = Reading(cpu: real, ram: real, disk: real, memory: real, net: Counters, clock: string)

  /** The loop's state: the remembered counters and the shared history. */
  datatype Sampler = Sampler(prev: Counters, history: History)

  /** The state before the first iteration. */
  const Start := Sampler(Unseeded, Empty)

  /** One iteration of the sampling loop. */
  function Step(s: Sampler, r: Reading): (n: Sampler)
    ensures n.prev == r.net
    ensures WellFormed(s.history) ==>
      WellFormed(n.history) && |n.history.cpu| == Min(|s.history.cpu| + 1, Capacity)
    ensures Aligned(s.history) ==>
      && Aligned(n.history)
      && |n.history.cpu| > 0
      && n.history.cpu[|n.history.cpu| - 1] == r.cpu
      && n.history.ram[|n.history.ram| - 1] == r.ram
      && n.history.disk[|n.history.disk| - 1] == r.disk
      && n.history.memory[|n.history.memory| - 1] == r.memory
      && n.history.time[|n.history.time| - 1] == r.clock
      && n.history.network[|n.history.network| - 1] ==
           (if s.prev == Unseeded then 0.0 else Delta(s.prev, r.net))
  {
    var m := Measure(s.prev, r.net);
    Sampler(m.prev, Tick(s.history, Sample(r.cpu, r.ram, r.disk, r.memory, m.kbps, r.clock)))
  }

  /** The state after the loop has consumed the readings, one per iteration. */
  function Run(rs: seq<Reading>): (s: Sampler)
    ensures WellFormed(s.history)
    ensures |s.history.cpu| == Min(|rs|, Capacity)
    ensures s.prev == if |rs| == 0 then Unseeded else rs[|rs| - 1].net
  {
    if |rs| == 0 then Start else Step(Run(rs[..|rs| - 1]), rs[|rs| - 1])
  }

  /** The network counters of each reading. */
  function Nets(rs: seq<Reading>): (cs: seq<Counters>)
    ensures |cs| == |rs|
  {
    seq(|rs|, i requires 0 <= i < |rs| => rs[i].net)
  }

  /**
    Reference definition of the values appended per tick: the reading's own
    usage figures and clock label, with the reference throughput.
   */
  function Samples(rs: seq<Reading>): (ss: seq<Sample>)
    ensures |ss| == |rs|
  {
    var rates := Rates(Nets(rs));
    seq(|rs|, i requires 0 <= i < |rs| =>
      Sample(rs[i].cpu, rs[i].ram, rs[i].disk, rs[i].memory, rates[i], rs[i].clock))
  }

  /** The rate the last iteration computes is the reference rate of the last reading. */
  lemma {:induction false} LastRate(rs: seq<Reading>)
    requires |rs| > 0
    ensures Measure(Run(rs[..|rs| - 1]).prev, rs[|rs| - 1].net).kbps == Rates(Nets(rs))[|rs| - 1]
  {
    if |rs| > 1 {
      assert rs[..|rs| - 1][|rs| - 2] == rs[|rs| - 2];
    }
  }

  /** Dropping the last reading drops the last reference sample and changes no other. */
  lemma SamplesSnoc(rs: seq<Reading>)
    requires |rs| > 0
    ensures Samples(rs)[..|rs| - 1] == Samples(rs[..|rs| - 1])
  {
    var p := rs[..|rs| - 1];
    RatesSnoc(Nets(rs));
    assert Nets(rs)[..|rs| - 1] == Nets(p);
  }

  /** The loop appends exactly the reference samples and remembers the last counters. */
  lemma {:induction false} RunRecordsSamples(rs: seq<Reading>)
    ensures Run(rs).history == Record(Samples(rs))
    ensures Run(rs).prev == if |rs| == 0 then Unseeded else rs[|rs| - 1].net
  {
    if |rs| > 0 {
      var p, r := rs[..|rs| - 1], rs[|rs| - 1];
      RunRecordsSamples(p);
      LastRate(rs);
      SamplesSnoc(rs);
      var ss := Samples(rs);
      assert ss[|rs| - 1] ==
        Sample(r.cpu, r.ram, r.disk, r.memory, Measure(Run(p).prev, r.net).kbps, r.clock);
    }
  }

  /**
    What the history holds after any number of iterations: aligned series of
    at most `Capacity` values, each the last values appended to it, the
    network series being the last reference throughputs.
   */
  lemma RunKeepsWindows(rs: seq<Reading>)
    ensures WellFormed(Run(rs).history)
    ensures |Run(rs).history.cpu| == Min(|rs|, Capacity)
    ensures Run(rs).history == Windowed(Samples(rs))
    ensures Run(rs).history.network == Window(Rates(Nets(rs)))
  {
    RunRecordsSamples(rs);
    RecordKeepsLastWindow(Samples(rs));
    assert Project(Samples(rs), NetworkOf) == Rates(Nets(rs));
  }

  /**
    The sampling loop over a finite prefix of its readings. The history is
    the window of what was appended and the remembered counters are the
    last reading's.
   */
  method Monitor(rs: seq<Reading>) returns (s: Sampler)
    ensures WellFormed(s.history)
    ensures |s.history.cpu| == Min(|rs|, Capacity)
    ensures s.history == Windowed(Samples(rs))
    ensures s.history.network == Window(Rates(Nets(rs)))
    ensures s.prev == if |rs| == 0 then Unseeded else rs[|rs| - 1].net
  {
    s := Start;
    var i := 0;
    while i < |rs|
      invariant 0 <= i <= |rs|
      invariant s == Run(rs[..i])
    {
      assert rs[..i + 1][..i] == rs[..i];
      s := Step(s, rs[i]);
      i := i + 1;
    }
    assert rs[..|rs|] == rs;
    RunKeepsWindows(rs);
    RunRecordsSamples(rs);
  }
}
