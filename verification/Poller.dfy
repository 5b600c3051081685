/**
 * The rolling state of the terminal interface: every successful read of the
 * metrics endpoint extends bounded histories by rates of change of counters.
 */
module Poller {
  import opened Text

  const SPARKLINE_CAP := 20

  /** Values shown as they were last read: connections, requests in flight, circuit breakers by state. */
  datatype Gauges = Gauges(connections: nat, inflight: nat, closed: nat, open: nat, halfOpen: nat)

  const NO_GAUGES := Gauges(0, 0, 0, 0, 0)

  /** What one read of the metrics endpoint reports. */
  datatype Sample = Sample(
    requests: nat, input: nat, output: nat, durationSum: real, durationCount: nat,
    workers: map<string, nat>, gauges: Gauges)

  function SaturatingSub(a: nat, b: nat): nat {
    if a >= b then a - b else 0
  }

  // ---------------------------------------------------------------- reference: the whole history

  function Recent<T>(s: seq<T>): seq<T> {
    if |s| <= SPARKLINE_CAP then s else s[|s| - SPARKLINE_CAP..]
  }

  type Change = (Sample, Sample) -> real

  /** What `f` makes of each two consecutive samples. */
  function Steps(seen: seq<Sample>, f: Change): seq<real> {
    if |seen| < 2 then [] else Steps(seen[..|seen| - 1], f) + [f(seen[|seen| - 2], seen[|seen| - 1])]
  }

  function Rate(before: nat, now: nat, interval: nat): real
    requires interval > 0
  {
    SaturatingSub(now, before) as real / interval as real
  }

  function RequestRate(interval: nat): Change
    requires interval > 0
  {
    (a: Sample, b: Sample) => Rate(a.requests, b.requests, interval)
  }

  function InputRate(interval: nat): Change
    requires interval > 0
  {
    (a: Sample, b: Sample) => Rate(a.input, b.input, interval)
  }

  function OutputRate(interval: nat): Change
    requires interval > 0
  {
    (a: Sample, b: Sample) => Rate(a.output, b.output, interval)
  }

  function Latency(): Change {
    (a: Sample, b: Sample) =>
      var sum := if b.durationSum >= a.durationSum then b.durationSum - a.durationSum else 0.0;
      var count := SaturatingSub(b.durationCount, a.durationCount);
      if count > 0 then sum / count as real else 0.0
  }

  // ---------------------------------------------------------------- the state

  /** Drop the oldest value of a full history, then add the newest. */
  method Push(history: seq<real>, x: real, ghost seen: seq<Sample>, ghost m: Sample, ghost f: Change)
    returns (r: seq<real>)
    requires seen != [] && history == Recent(Steps(seen, f)) && x == f(seen[|seen| - 1], m)
    ensures r == Recent(Steps(seen + [m], f))
  {
    assert (seen + [m])[..|seen|] == seen;
    r := history;
    if |r| >= SPARKLINE_CAP {
      r := r[1..];
    }
    r := r + [x];
  }

  /** Without an earlier sample a history stays as it is. */
  method PushRate(history: seq<real>, before: Option<nat>, now: nat, interval: nat, ghost seen: seq<Sample>,
                  ghost m: Sample, ghost f: Change)
    returns (r: seq<real>)
    requires interval > 0 && history == Recent(Steps(seen, f)) && (before.Some? <==> seen != [])
    requires before.Some? ==> f(seen[|seen| - 1], m) == Rate(before.value, now, interval)
    ensures r == Recent(Steps(seen + [m], f))
  {
    r := history;
    if before.Some? {
      r := Push(history, SaturatingSub(now, before.value) as real / interval as real, seen, m, f);
    }
  }

  method PushLatency(history: seq<real>, before: Option<(real, nat)>, m: Sample, ghost seen: seq<Sample>)
    returns (r: seq<real>)
    requires history == Recent(Steps(seen, Latency())) && (before.Some? <==> seen != [])
    requires before.Some? ==> before.value == (seen[|seen| - 1].durationSum, seen[|seen| - 1].durationCount)
    ensures r == Recent(Steps(seen + [m], Latency()))
  {
    r := history;
    if before.Some? {
      var (prevSum, prevCount) := before.value;
      var deltaSum := if m.durationSum >= prevSum then m.durationSum - prevSum else 0.0;
      var deltaCount := SaturatingSub(m.durationCount, prevCount);
      var average := if deltaCount > 0 then deltaSum / deltaCount as real else 0.0;
      r := Push(history, average, seen, m, Latency());
    }
  }

  /** A worker reported by two consecutive samples, the first at position `i`. */
  ghost predicate Reported(seen: seq<Sample>, worker: string, i: nat) {
    i + 1 < |seen| && worker in seen[i].workers && worker in seen[i + 1].workers
  }

  ghost predicate LatestReport(seen: seq<Sample>, worker: string, i: nat) {
    Reported(seen, worker, i) && forall j: nat :: j > i ==> !Reported(seen, worker, j)
  }

  function WorkerRate(seen: seq<Sample>, worker: string, i: nat, interval: nat): real
    requires interval > 0 && i + 1 < |seen| && worker in seen[i].workers && worker in seen[i + 1].workers
  {
    Rate(seen[i].workers[worker], seen[i + 1].workers[worker], interval)
  }

  /** Every worker ever reported twice in a row carries the rate of its latest such report. */
  ghost predicate WorkerRates(rps: map<string, real>, seen: seq<Sample>, interval: nat)
    requires interval > 0
  {
    && (forall w, i: nat :: Reported(seen, w, i) ==> w in rps)
    && (forall w :: w in rps ==>
        exists i: nat :: LatestReport(seen, w, i) && rps[w] == WorkerRate(seen, w, i, interval))
  }

  method UpdateWorkers(rps: map<string, real>, prev: map<string, nat>, cur: map<string, nat>, interval: nat)
    returns (r: map<string, real>)
    requires interval > 0
    ensures r.Keys == rps.Keys + (prev.Keys * cur.Keys)
    ensures forall w :: w in r ==> r[w] == if w in prev && w in cur then Rate(prev[w], cur[w], interval) else rps[w]
  {
    r := rps;
    var todo := cur.Keys;
    while todo != {}
      invariant todo <= cur.Keys
      invariant r.Keys == rps.Keys + (prev.Keys * (cur.Keys - todo))
      invariant forall w :: w in r ==>
              r[w] == if w in prev && w in cur.Keys - todo then Rate(prev[w], cur[w], interval) else rps[w]
    {
      var w :| w in todo;
      todo := todo - {w};
      if w in prev {
        r := r[w := SaturatingSub(cur[w], prev[w]) as real / interval as real];
      }
    }
  }

  lemma LatestStays(seen: seq<Sample>, m: Sample, worker: string, i: nat)
    requires LatestReport(seen, worker, i) && !Reported(seen + [m], worker, |seen| - 1)
    ensures LatestReport(seen + [m], worker, i)
  {
    forall j: nat | j > i ensures !Reported(seen + [m], worker, j) {
      assert !Reported(seen, worker, j);
    }
  }

  lemma WorkerRatesExtend(rps: map<string, real>, seen: seq<Sample>, m: Sample, interval: nat, r: map<string, real>)
    requires interval > 0 && WorkerRates(rps, seen, interval)
    requires var prev := if seen == [] then map[] else seen[|seen| - 1].workers;
             && r.Keys == rps.Keys + (prev.Keys * m.workers.Keys)
             && forall w :: w in r ==>
                 r[w] == if w in prev && w in m.workers then Rate(prev[w], m.workers[w], interval) else rps[w]
    ensures WorkerRates(r, seen + [m], interval)
  {
    var all := seen + [m];
    forall w, i: nat | Reported(all, w, i) ensures w in r {
      if i + 1 < |seen| {
        assert Reported(seen, w, i);
      }
    }
    forall w | w in r ensures exists i: nat :: LatestReport(all, w, i) && r[w] == WorkerRate(all, w, i, interval) {
      if seen != [] && w in seen[|seen| - 1].workers && w in m.workers {
        assert LatestReport(all, w, |seen| - 1);
      } else {
        var i: nat :| LatestReport(seen, w, i) && rps[w] == WorkerRate(seen, w, i, interval);
        LatestStays(seen, m, w, i);
      }
    }
  }

  class GatewayState {
    const interval: nat
    var requestsPerSec: seq<real>
    var throughput: seq<real>
    var inputTps: seq<real>
    var outputTps: seq<real>
    var latency: seq<real>
    var prevRequests: Option<nat>
    var prevInput: Option<nat>
    var prevOutput: Option<nat>
    var prevDuration: Option<(real, nat)>
    var prevWorkers: map<string, nat>
    var workerRps: map<string, real>
    var gauges: Gauges
    ghost var seen: seq<Sample>

    /** The histories are the most recent rates of everything read so far. */
    ghost predicate Valid()
      reads this
    {
      && interval > 0
      && Counters() && Histories(seen)
      && WorkerRates(workerRps, seen, interval)
    }

    ghost predicate Counters()
      reads `prevRequests, `prevInput, `prevOutput, `prevDuration, `prevWorkers, `gauges, `seen
    {
      if seen == [] then
        && prevRequests == None && prevInput == None && prevOutput == None && prevDuration == None
        && prevWorkers == map[] && gauges == NO_GAUGES
      else
        var last := seen[|seen| - 1];
        && prevRequests == Some(last.requests) && prevInput == Some(last.input) && prevOutput == Some(last.output)
        && prevDuration == Some((last.durationSum, last.durationCount))
        && prevWorkers == last.workers && gauges == last.gauges
    }

    ghost predicate Histories(seen: seq<Sample>)
      reads `requestsPerSec, `throughput, `inputTps, `outputTps, `latency
      requires interval > 0
    {
      && requestsPerSec == Recent(Steps(seen, RequestRate(interval)))
      && throughput == requestsPerSec
      && inputTps == Recent(Steps(seen, InputRate(interval)))
      && outputTps == Recent(Steps(seen, OutputRate(interval)))
      && latency == Recent(Steps(seen, Latency()))
    }

    constructor (interval: nat)
      requires interval > 0
      ensures Valid() && seen == [] && this.interval == interval && gauges == Gauges(0, 0, 0, 0, 0)
    {
      this.interval := interval;
      requestsPerSec, throughput, inputTps, outputTps, latency := [], [], [], [], [];
      prevRequests, prevInput, prevOutput, prevDuration := None, None, None, None;
      prevWorkers, workerRps, gauges := map[], map[], NO_GAUGES;
      seen := [];
    }

    method ExtendRequests(m: Sample)
      requires interval > 0 && Counters() && requestsPerSec == throughput == Recent(Steps(seen, RequestRate(interval)))
      modifies `requestsPerSec, `throughput
      ensures requestsPerSec == throughput == Recent(Steps(seen + [m], RequestRate(interval)))
    {
      var rates := PushRate(requestsPerSec, prevRequests, m.requests, interval, seen, m, RequestRate(interval));
      var shown := PushRate(throughput, prevRequests, m.requests, interval, seen, m, RequestRate(interval));
      requestsPerSec, throughput := rates, shown;
    }

    method ExtendTokens(m: Sample)
      requires interval > 0 && Counters() && inputTps == Recent(Steps(seen, InputRate(interval)))
      requires outputTps == Recent(Steps(seen, OutputRate(interval)))
      modifies `inputTps, `outputTps
      ensures inputTps == Recent(Steps(seen + [m], InputRate(interval)))
      ensures outputTps == Recent(Steps(seen + [m], OutputRate(interval)))
    {
      var inputs := PushRate(inputTps, prevInput, m.input, interval, seen, m, InputRate(interval));
      var outputs := PushRate(outputTps, prevOutput, m.output, interval, seen, m, OutputRate(interval));
      inputTps, outputTps := inputs, outputs;
    }

    method ExtendHistories(m: Sample)
      requires interval > 0 && Counters() && Histories(seen)
      modifies `requestsPerSec, `throughput, `inputTps, `outputTps, `latency
      ensures Histories(seen + [m])
    {
      ExtendRequests(m);
      ExtendTokens(m);
      latency := PushLatency(latency, prevDuration, m, seen);
    }

    method ExtendWorkers(m: Sample)
      requires interval > 0 && Counters() && WorkerRates(workerRps, seen, interval)
      modifies `workerRps
      ensures WorkerRates(workerRps, seen + [m], interval)
    {
      ghost var before := workerRps;
      workerRps := UpdateWorkers(workerRps, prevWorkers, m.workers, interval);
      WorkerRatesExtend(before, seen, m, interval, workerRps);
    }

    method RecordCounters(m: Sample)
      modifies `prevRequests, `prevInput, `prevOutput, `prevDuration, `prevWorkers, `gauges, `seen
      ensures seen == old(seen) + [m] && Counters()
    {
      prevRequests, prevInput, prevOutput := Some(m.requests), Some(m.input), Some(m.output);
      prevDuration := Some((m.durationSum, m.durationCount));
      prevWorkers, gauges := m.workers, m.gauges;
      seen := seen + [m];
    }

    /** A failed read changes nothing; a successful one is appended to what was seen. */
    method PollOnce(metrics: Option<Sample>)
      requires Valid()
      modifies this
      ensures Valid()
      ensures seen == old(seen) + if metrics.Some? then [metrics.value] else []
    {
      if metrics.Some? {
        ExtendHistories(metrics.value);
        ExtendWorkers(metrics.value);
        RecordCounters(metrics.value);
      }
    }
  }

  // ---------------------------------------------------------------- what the histories say

  lemma {:induction false} StepsLength(seen: seq<Sample>, f: Change)
    ensures |Steps(seen, f)| == if seen == [] then 0 else |seen| - 1
  {
    if |seen| < 2 {
    } else {
      StepsLength(seen[..|seen| - 1], f);
    }
  }

  /** After `n` successful reads the four histories all hold the last min(n - 1, 20) values. */
  lemma HistoriesAligned(state: GatewayState)
    requires state.Valid() && state.seen != []
    ensures |state.requestsPerSec| == |state.inputTps| == |state.outputTps| == |state.latency|
    ensures |state.latency| == if |state.seen| > SPARKLINE_CAP then SPARKLINE_CAP else |state.seen| - 1
  {
    StepsLength(state.seen, RequestRate(state.interval));
    StepsLength(state.seen, InputRate(state.interval));
    StepsLength(state.seen, OutputRate(state.interval));
    StepsLength(state.seen, Latency());
  }

  lemma {:induction false} StepsAt(seen: seq<Sample>, f: Change, j: nat)
    requires j + 1 < |seen|
    ensures |Steps(seen, f)| == |seen| - 1 && Steps(seen, f)[j] == f(seen[j], seen[j + 1])
  {
    var init := seen[..|seen| - 1];
    StepsLength(seen, f);
    StepsLength(init, f);
    if j + 2 < |seen| {
      StepsAt(init, f, j);
    }
  }

  /** A rise over an interval; a counter that fell shows as no rise. */
  ghost predicate RiseOver(value: real, before: nat, after: nat, interval: nat) {
    && (before <= after ==> value * interval as real == (after - before) as real)
    && (after < before ==> value == 0.0)
  }

  /** The mean duration of the requests that were finished between two reads. */
  ghost predicate MeanDuration(value: real, a: Sample, b: Sample) {
    && (a.durationCount < b.durationCount && a.durationSum <= b.durationSum ==>
          value * (b.durationCount - a.durationCount) as real == b.durationSum - a.durationSum)
    && (b.durationCount <= a.durationCount || b.durationSum < a.durationSum ==> value == 0.0)
  }

  lemma RateIsRise(before: nat, now: nat, interval: nat)
    requires interval > 0
    ensures RiseOver(Rate(before, now, interval), before, now, interval)
  {
  }

  lemma LatencyIsMean(a: Sample, b: Sample)
    ensures MeanDuration(Latency()(a, b), a, b)
  {
  }

  lemma ShownAt(history: seq<real>, seen: seq<Sample>, f: Change, i: nat) returns (j: nat)
    requires history == Recent(Steps(seen, f)) && i < |history|
    ensures j == |seen| - 1 - (if |seen| > 20 then 20 else |seen| - 1) + i
    ensures j + 1 < |seen| && history[i] == f(seen[j], seen[j + 1])
  {
    StepsLength(seen, f);
    j := |seen| - 1 - |history| + i;
    StepsAt(seen, f, j);
  }

  /**
   * The i-th value of every history, from the samples: the histories hold the changes between the last 21 reads at
   * most, oldest first.
   */
  lemma HistoryAt(state: GatewayState, i: nat)
    requires state.Valid() && i < |state.latency|
    ensures var shown := if |state.seen| > 20 then 20 else |state.seen| - 1;
            var j := |state.seen| - 1 - shown + i;
            && 0 <= j && j + 1 < |state.seen| && i < |state.requestsPerSec| && i < |state.throughput|
            && i < |state.inputTps| && i < |state.outputTps|
            && var a, b := state.seen[j], state.seen[j + 1];
               && RiseOver(state.requestsPerSec[i], a.requests, b.requests, state.interval)
               && RiseOver(state.throughput[i], a.requests, b.requests, state.interval)
               && RiseOver(state.inputTps[i], a.input, b.input, state.interval)
               && RiseOver(state.outputTps[i], a.output, b.output, state.interval)
               && MeanDuration(state.latency[i], a, b)
  {
    var seen, interval := state.seen, state.interval;
    HistoriesAligned(state);
    var j := ShownAt(state.latency, seen, Latency(), i);
    var _ := ShownAt(state.requestsPerSec, seen, RequestRate(interval), i);
    var _ := ShownAt(state.inputTps, seen, InputRate(interval), i);
    var _ := ShownAt(state.outputTps, seen, OutputRate(interval), i);
    RateIsRise(seen[j].requests, seen[j + 1].requests, interval);
    RateIsRise(seen[j].input, seen[j + 1].input, interval);
    RateIsRise(seen[j].output, seen[j + 1].output, interval);
    LatencyIsMean(seen[j], seen[j + 1]);
  }

  function Total(s: seq<real>): real {
    if s == [] then 0.0 else Total(s[..|s| - 1]) + s[|s| - 1]
  }

  /** The rises of the request counter, and the falls that its resets made. */
  function Gained(seen: seq<Sample>): nat {
    if |seen| < 2 then 0
    else Gained(seen[..|seen| - 1]) + SaturatingSub(seen[|seen| - 1].requests, seen[|seen| - 2].requests)
  }

  function Lost(seen: seq<Sample>): nat {
    if |seen| < 2 then 0
    else Lost(seen[..|seen| - 1]) + SaturatingSub(seen[|seen| - 2].requests, seen[|seen| - 1].requests)
  }

  lemma {:induction false} GainedMinusLost(seen: seq<Sample>)
    requires seen != []
    ensures seen[0].requests + Gained(seen) == seen[|seen| - 1].requests + Lost(seen)
  {
    if |seen| < 2 {
    } else {
      GainedMinusLost(seen[..|seen| - 1]);
    }
  }

  ghost predicate DropsAt(seen: seq<Sample>, i: nat) {
    0 < i < |seen| && seen[i].requests < seen[i - 1].requests
  }

  ghost predicate NeverDrops(seen: seq<Sample>) {
    forall i: nat :: !DropsAt(seen, i)
  }

  lemma {:induction false} LostNothing(seen: seq<Sample>)
    ensures Lost(seen) == 0 <==> NeverDrops(seen)
  {
    if |seen| < 2 {
    } else {
      var init := seen[..|seen| - 1];
      LostNothing(init);
      assert forall i: nat :: i < |init| ==> (DropsAt(seen, i) <==> DropsAt(init, i));
      assert DropsAt(seen, |init|) <==> SaturatingSub(seen[|seen| - 2].requests, seen[|seen| - 1].requests) > 0;
      assert forall i: nat :: DropsAt(seen, i) ==> i < |seen|;
      assert forall i: nat :: DropsAt(init, i) ==> DropsAt(seen, i);
    }
  }

  lemma TotalExtend(s: seq<real>, x: real)
    ensures Total(s + [x]) == Total(s) + x
  {
    assert (s + [x])[..|s|] == s;
  }

  lemma Quotients(a: real, b: real, k: real)
    requires k > 0.0
    ensures a / k + b / k == (a + b) / k
  {
  }

  /** The displayed rates add up to the rises of the counter per interval. */
  lemma {:induction false} RatesAreGains(seen: seq<Sample>, interval: nat)
    requires interval > 0
    ensures Total(Steps(seen, RequestRate(interval))) == Gained(seen) as real / interval as real
  {
    if |seen| < 2 {
    } else {
      var init, a, b := seen[..|seen| - 1], seen[|seen| - 2], seen[|seen| - 1];
      var f := RequestRate(interval);
      RatesAreGains(init, interval);
      TotalExtend(Steps(init, f), f(a, b));
      Quotients(Gained(init) as real, SaturatingSub(b.requests, a.requests) as real, interval as real);
    }
  }

  /**
   * The rates account for at least the net change of the counter, and for exactly
   * that change just when the counter never drops.
   */
  lemma RatesCoverChange(seen: seq<Sample>, interval: nat)
    requires seen != [] && interval > 0
    ensures Total(Steps(seen, RequestRate(interval))) == Gained(seen) as real / interval as real
    ensures Gained(seen) >= seen[|seen| - 1].requests - seen[0].requests
    ensures Gained(seen) == seen[|seen| - 1].requests - seen[0].requests <==> NeverDrops(seen)
  {
    RatesAreGains(seen, interval);
    GainedMinusLost(seen);
    LostNothing(seen);
  }
}
