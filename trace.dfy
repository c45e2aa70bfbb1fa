/**
 * A run of the handler over a sequence of deliveries (run.py lines 84-116,
 * invoked once per message): what the ten timestamps hold afterwards.
 */
module Trace {
  import opened Wrappers
  import opened Sensors
  import opened SensorTable

  /** A message together with the time the handler received it. */
  datatype Delivery = Delivery(msg: Message, now: int)

  /** The table after handling `trace` in order, starting from `t`. */
  function Run(t: Table, trace: seq<Delivery>): Table
    decreases |trace|
  {
    if trace == [] then t
    else
      var last := trace[|trace| - 1];
      Step(Run(t, trace[..|trace| - 1]), last.msg, last.now)
  }

  /** No delivery in `trace` reports field `f` of sensor `s`. */
  ghost predicate Unreported(trace: seq<Delivery>, s: Sensor, f: Field) {
    forall i :: 0 <= i < |trace| ==> !Marks(trace[i].msg, s, f)
  }

  /** Delivery `i` is the last one in `trace` that reports field `f` of sensor `s`. */
  ghost predicate LastReport(trace: seq<Delivery>, s: Sensor, f: Field, i: int) {
    0 <= i < |trace| && Marks(trace[i].msg, s, f) &&
    forall j :: i < j < |trace| ==> !Marks(trace[j].msg, s, f)
  }

  /** A timestamp that no message in the trace reports keeps its starting value. */
  lemma {:induction false} RunKeepsUnreported(t: Table, trace: seq<Delivery>, s: Sensor, f: Field)
    requires Unreported(trace, s, f)
    ensures Stamp(Run(t, trace).Get(s), f) == Stamp(t.Get(s), f)
    decreases |trace|
  {
    if trace != [] {
      var n := |trace| - 1;
      var prefix := trace[..n];
      assert Unreported(prefix, s, f) by {
        forall i | 0 <= i < n ensures !Marks(prefix[i].msg, s, f) {
          assert prefix[i] == trace[i];
        }
      }
      RunKeepsUnreported(t, prefix, s, f);
      StepStamp(Run(t, prefix), trace[n].msg, trace[n].now, s, f);
    }
  }

  /** A timestamp holds the arrival time of the LAST message in the trace that reported it. */
  lemma {:induction false} RunRecordsLatest(t: Table, trace: seq<Delivery>, s: Sensor, f: Field, i: int)
    requires LastReport(trace, s, f, i)
    ensures Stamp(Run(t, trace).Get(s), f) == Some(trace[i].now)
    decreases |trace|
  {
    var n := |trace| - 1;
    var prefix := trace[..n];
    StepStamp(Run(t, prefix), trace[n].msg, trace[n].now, s, f);
    if i < n {
      assert LastReport(prefix, s, f, i) by {
        forall j | i < j < n ensures !Marks(prefix[j].msg, s, f) {
          assert prefix[j] == trace[j];
        }
      }
      RunRecordsLatest(t, prefix, s, f, i);
    }
  }

  /** No timestamp in `t` lies after `bound`. */
  ghost predicate NotAfter(t: Table, bound: int) {
    forall s, f :: Stamp(t.Get(s), f).Some? ==> Stamp(t.Get(s), f).value <= bound
  }

  /** No timestamp went backwards or became absent between `t` and `u`. */
  ghost predicate Advanced(t: Table, u: Table) {
    forall s, f :: Stamp(t.Get(s), f).Some? ==>
      Stamp(u.Get(s), f).Some? && Stamp(t.Get(s), f).value <= Stamp(u.Get(s), f).value
  }

  /** The arrival times never decrease along the trace, and none precedes `start`. */
  ghost predicate Chronological(trace: seq<Delivery>, start: int) {
    (forall i :: 0 <= i < |trace| ==> start <= trace[i].now) &&
    (forall i, j :: 0 <= i < j < |trace| ==> trace[i].now <= trace[j].now)
  }

  /**
   * When messages arrive in time order, every timestamp only moves forward,
   * and none lies after the arrival time of the last message.
   */
  lemma {:induction false} RunAdvances(t: Table, trace: seq<Delivery>, start: int)
    requires NotAfter(t, start) && Chronological(trace, start)
    ensures Advanced(t, Run(t, trace))
    ensures NotAfter(Run(t, trace), if trace == [] then start else trace[|trace| - 1].now)
    decreases |trace|
  {
    if trace != [] {
      var n := |trace| - 1;
      var prefix := trace[..n];
      assert Chronological(prefix, start);
      RunAdvances(t, prefix, start);
      var mid := Run(t, prefix);
      var bound := if prefix == [] then start else prefix[n - 1].now;
      assert bound <= trace[n].now;
      var last := Step(mid, trace[n].msg, trace[n].now);
      forall s, f
        ensures Stamp(mid.Get(s), f).Some? ==>
          Stamp(last.Get(s), f).Some? && Stamp(mid.Get(s), f).value <= Stamp(last.Get(s), f).value
        ensures Stamp(last.Get(s), f).Some? ==> Stamp(last.Get(s), f).value <= trace[n].now
      {
        StepStamp(mid, trace[n].msg, trace[n].now, s, f);
      }
    }
  }
}
