/**
  Network throughput from cumulative byte counters. The sampler remembers
  the previous (sent, received) pair, starting at (0, 0). While the
  remembered pair is (0, 0) the reported rate is 0; otherwise it is the
  growth of both counters since the previous reading, in kilobytes. After
  every reading the remembered pair becomes the current reading.
 */
module NetworkRate {

  /** Cumulative bytes sent and received, as reported by the operating system. */
  datatype Counters = Counters(sent: nat, recv: nat)

  /** The remembered pair before the first reading. */
  const Unseeded := Counters(0, 0)

  /** Bytes per kilobyte used to scale the delta. */
  const BytesPerKilobyte: real := 1024.0

  /** All bytes moved, in either direction. */
  function Total(c: Counters): int {
    c.sent + c.recv
  }

  /** The growth of both counters between two readings, in kilobytes (true division). */
  function Delta(prev: Counters, cur: Counters): real {
    ((cur.sent - prev.sent) + (cur.recv - prev.recv)) as real / BytesPerKilobyte
  }

  /** What one tick reports and what it remembers for the next tick. */
  datatype Measurement = Measurement(kbps: real, prev: Counters)

  /** One tick of the throughput state machine. */
  function Measure(prev: Counters, cur: Counters): (m: Measurement)
    ensures m.prev == cur
    ensures prev.sent == 0 && prev.recv == 0 ==> m.kbps == 0.0
    ensures !(prev.sent == 0 && prev.recv == 0) ==>
      m.kbps * BytesPerKilobyte == (Total(cur) - Total(prev)) as real
    ensures cur.sent >= prev.sent && cur.recv >= prev.recv ==> m.kbps >= 0.0
  {
    if prev.sent == 0 && prev.recv == 0 then
      Measurement(0.0, cur)
    else
      Measurement(Delta(prev, cur), cur)
  }

  /**
    Outside the (0, 0) branch nothing clamps the rate: it is negative exactly
    when sent plus received bytes dropped since the previous reading.
   */
  lemma RateNegativeIffTotalDrops(prev: Counters, cur: Counters)
    requires prev != Unseeded
    ensures Measure(prev, cur).kbps < 0.0 <==> Total(cur) < Total(prev)
  {
    var m := Measure(prev, cur);
    assert m.kbps * BytesPerKilobyte == (Total(cur) - Total(prev)) as real;
  }

  /** The rates reported and the pair remembered after a series of readings. */
  datatype Replayed = Replayed(rates: seq<real>, prev: Counters)

  /** Runs the state machine from `Unseeded` over the readings, one tick each. */
  function Replay(cs: seq<Counters>): (r: Replayed)
    ensures |r.rates| == |cs|
    ensures r.prev == if |cs| == 0 then Unseeded else cs[|cs| - 1]
    ensures |cs| > 0 ==> r.rates[0] == 0.0
  {
    if |cs| == 0 then
      Replayed([], Unseeded)
    else
      var before := Replay(cs[..|cs| - 1]);
      var m := Measure(before.prev, cs[|cs| - 1]);
      Replayed(before.rates + [m.kbps], m.prev)
  }

  /**
    Reference definition of the reported rates: the rate at tick `i` depends
    only on readings `i - 1` and `i`; it is 0 at the first tick and after a
    reading of (0, 0).
   */
  function Rates(cs: seq<Counters>): (rs: seq<real>)
    ensures |rs| == |cs|
  {
    seq(|cs|, i requires 0 <= i < |cs| =>
      if i == 0 || cs[i - 1] == Unseeded then 0.0 else Delta(cs[i - 1], cs[i]))
  }

  /** Dropping the last reading drops the last reference rate and changes no other. */
  lemma RatesSnoc(cs: seq<Counters>)
    requires |cs| > 0
    ensures Rates(cs)[..|cs| - 1] == Rates(cs[..|cs| - 1])
  {
    var p := cs[..|cs| - 1];
    forall i | 0 <= i < |p|
      ensures Rates(cs)[i] == Rates(p)[i]
    {
      assert cs[i] == p[i];
      assert i > 0 ==> cs[i - 1] == p[i - 1];
    }
  }

  /** Two series agreeing on everything but the last value, and on the last value, are equal. */
  lemma SameSeries(a: seq<real>, b: seq<real>)
    requires |a| == |b| > 0
    requires a[..|a| - 1] == b[..|b| - 1] && a[|a| - 1] == b[|b| - 1]
    ensures a == b
  {
    assert a == a[..|a| - 1] + [a[|a| - 1]];
    assert b == b[..|b| - 1] + [b[|b| - 1]];
  }

  /** The rate of the last tick is the reference rate of the last reading. */
  lemma LastTickRate(cs: seq<Counters>)
    requires |cs| > 0
    ensures Measure(Replay(cs[..|cs| - 1]).prev, cs[|cs| - 1]).kbps == Rates(cs)[|cs| - 1]
  {
    if |cs| > 1 {
      assert cs[..|cs| - 1][|cs| - 2] == cs[|cs| - 2];
    }
  }

  /** The state machine reports exactly the reference rates and remembers the last reading. */
  lemma {:induction false} ReplayMatchesRates(cs: seq<Counters>)
    ensures Replay(cs).rates == Rates(cs)
    ensures Replay(cs).prev == if |cs| == 0 then Unseeded else cs[|cs| - 1]
  {
    if |cs| > 0 {
      var p := cs[..|cs| - 1];
      ReplayMatchesRates(p);
      RatesSnoc(cs);
      LastTickRate(cs);
      var r := Replay(cs).rates;
      assert r[..|cs| - 1] == Replay(p).rates;
      SameSeries(r, Rates(cs));
    }
  }

  /** Sum of a series of rates. */
  function Sum(xs: seq<real>): real {
    if |xs| == 0 then 0.0 else Sum(xs[..|xs| - 1]) + xs[|xs| - 1]
  }

  /**
    Telescoping: when no reading before the last is (0, 0), the rates
    reported over the whole run add up to the growth of the counters between
    the first and the last reading, in kilobytes. The first tick contributes 0.
   */
  lemma {:induction false} RatesTelescope(cs: seq<Counters>)
    requires |cs| > 0
    requires forall i :: 0 <= i < |cs| - 1 ==> cs[i] != Unseeded
    ensures Sum(Rates(cs)) * BytesPerKilobyte == (Total(cs[|cs| - 1]) - Total(cs[0])) as real
  {
    var rs := Rates(cs);
    if |cs| == 1 {
      assert rs == [0.0];
      assert rs[..0] == [];
    } else {
      var p := cs[..|cs| - 1];
      var n := |cs| - 1;
      RatesTelescope(p);
      assert rs[..n] == Rates(p);
      assert Sum(rs) == Sum(Rates(p)) + rs[n];
      assert cs[n - 1] != Unseeded;
      assert rs[n] * BytesPerKilobyte == (Total(cs[n]) - Total(cs[n - 1])) as real;
      assert p[n - 1] == cs[n - 1] && p[0] == cs[0];
    }
  }
}
