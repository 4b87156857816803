/**
 The release checker's reading of a report: its scenario list and its sample
 series.
 */
module MobileEvidence {
  import opened Timeline

  // ---- Scenario list

  /** One element of the scenario array; `isObject` is false for anything but a JSON object. */
  datatype RawScenario = RawScenario(isObject: bool, id: Json, status: Json, attempts: Json, notes: Json, others: bool)

  predicate NoControl(s: string) {
    forall i :: 0 <= i < |s| ==> s[i] as int >= 0x20
  }

  // require_string; the words the tools compare with and timestamps are short printable strings.
  predicate StringValue(j: Json, maximum: nat) {
    || j.Literal? || j.Stamp?
    || (j.Text? && 0 < |j.s| <= maximum && NoControl(j.s))
  }

  // The checks on one element alone.
  predicate ElementOk(raw: RawScenario) {
    && raw.isObject && !raw.others
    && StringValue(raw.id, 128)
    && raw.status == Literal(PassedWord)
    && raw.attempts.Int? && raw.attempts.n >= 1
    && !raw.notes.Absent? && StringValue(raw.notes, 4096)
  }

  predicate Named(pol: Policy, id: Json) {
    exists k :: 0 <= k < |pol.required| && id == Text(pol.required[k].0)
  }

  ghost predicate WellFormedList(scenarios: seq<RawScenario>) {
    && (forall i :: 0 <= i < |scenarios| ==> ElementOk(scenarios[i]))
    && (forall i, j :: 0 <= i < j < |scenarios| ==> scenarios[i].id != scenarios[j].id)
  }

  // Some element reports the scenario with at least that many attempts.
  ghost predicate Reports(scenarios: seq<RawScenario>, id: string, minimum: nat) {
    exists i :: 0 <= i < |scenarios| && scenarios[i].id == Text(id)
             && scenarios[i].attempts.Int? && scenarios[i].attempts.n >= minimum
  }

  /** What the checker promises of a list: well-formed elements without duplicate ids that name
      exactly the required scenarios, each with enough attempts. */
  ghost predicate CoversPolicy(pol: Policy, scenarios: seq<RawScenario>) {
    && WellFormedList(scenarios)
    && (forall i :: 0 <= i < |scenarios| ==> Named(pol, scenarios[i].id))
    && (forall k :: 0 <= k < |pol.required| ==> Reports(scenarios, pol.required[k].0, pol.required[k].1))
  }

  // The dictionary the first loop fills.
  ghost predicate Tabulates(observed: map<Json, int>, scenarios: seq<RawScenario>) {
    && (forall i :: 0 <= i < |scenarios| ==>
          scenarios[i].id in observed && scenarios[i].attempts == Int(observed[scenarios[i].id]))
    && (forall id :: id in observed ==> exists i :: 0 <= i < |scenarios| && scenarios[i].id == id)
  }

  lemma TabulatesNext(observed: map<Json, int>, scenarios: seq<RawScenario>, raw: RawScenario)
    requires Tabulates(observed, scenarios) && raw.id !in observed && raw.attempts.Int?
    ensures Tabulates(observed[raw.id := raw.attempts.n], scenarios + [raw])
  {
    var longer, more := observed[raw.id := raw.attempts.n], scenarios + [raw];
    forall id | id in longer ensures exists i :: 0 <= i < |more| && more[i].id == id {
      if id == raw.id {
        assert more[|scenarios|].id == id;
      } else {
        var i :| 0 <= i < |scenarios| && scenarios[i].id == id;
        assert more[i].id == id;
      }
    }
  }

  // A list stays well formed exactly when its next element is and brings a new id.
  lemma WellFormedNext(observed: map<Json, int>, scenarios: seq<RawScenario>, raw: RawScenario)
    requires WellFormedList(scenarios) && Tabulates(observed, scenarios)
    ensures WellFormedList(scenarios + [raw]) <==> ElementOk(raw) && raw.id !in observed
  {
    var more := scenarios + [raw];
    assert more[|scenarios|] == raw;
    assert forall i :: 0 <= i < |scenarios| ==> more[i] == scenarios[i];
  }

  lemma WellFormedPrefix(scenarios: seq<RawScenario>, n: nat)
    requires n <= |scenarios| && WellFormedList(scenarios)
    ensures WellFormedList(scenarios[..n])
  {
  }

  method Observe(scenarios: seq<RawScenario>) returns (ok: bool, observed: map<Json, int>)
    ensures ok <==> WellFormedList(scenarios)
    ensures ok ==> Tabulates(observed, scenarios)
  {
    observed := map[];
    var index := 0;
    while index < |scenarios|
      invariant 0 <= index <= |scenarios|
      invariant WellFormedList(scenarios[..index])
      invariant Tabulates(observed, scenarios[..index])
    {
      var raw := scenarios[index];
      assert scenarios[..index + 1] == scenarios[..index] + [raw];
      WellFormedNext(observed, scenarios[..index], raw);
      if !ElementOk(raw) || raw.id in observed {
        if WellFormedList(scenarios) { WellFormedPrefix(scenarios, index + 1); }
        return false, observed;
      }
      TabulatesNext(observed, scenarios[..index], raw);
      observed := observed[raw.id := raw.attempts.n];
      index := index + 1;
    }
    assert scenarios[..index] == scenarios;
    ok := true;
  }

  lemma ReportsAsTabulated(scenarios: seq<RawScenario>, observed: map<Json, int>, id: string, minimum: nat)
    requires WellFormedList(scenarios) && Tabulates(observed, scenarios)
    ensures Reports(scenarios, id, minimum) <==> Text(id) in observed && observed[Text(id)] >= minimum
  {
    if Text(id) in observed && observed[Text(id)] >= minimum {
      var i :| 0 <= i < |scenarios| && scenarios[i].id == Text(id);
      assert scenarios[i].attempts == Int(observed[Text(id)]);
    }
  }

  method ValidateScenarios(pol: Policy, scenarios: seq<RawScenario>) returns (ok: bool)
    ensures ok <==> CoversPolicy(pol, scenarios)
  {
    var formed, observed := Observe(scenarios);
    if !formed { return false; }
    if exists id :: id in observed && !Named(pol, id) {
      ghost var id :| id in observed && !Named(pol, id);
      ghost var i :| 0 <= i < |scenarios| && scenarios[i].id == id;
      return false;
    }
    for k := 0 to |pol.required|
      invariant forall j :: 0 <= j < k ==> Reports(scenarios, pol.required[j].0, pol.required[j].1)
    {
      var id, minimum := pol.required[k].0, pol.required[k].1;
      ReportsAsTabulated(scenarios, observed, id, minimum);
      if Text(id) !in observed || observed[Text(id)] < minimum { return false; }
    }
    return true;
  }

  // ---- Sample series

  datatype Sample = Sample(
    elapsed: int, generation: int, memory: int, threads: int, connections: int,
    inbound: int, outbound: int, fatalErrors: int, unrecovered: int)

  predicate SampleOk(s: Sample) {
    && s.elapsed >= 0 && s.generation > 0 && s.memory > 0 && s.threads > 0 && s.connections >= 0
    && s.inbound >= 0 && s.outbound >= 0 && s.fatalErrors == 0 && s.unrecovered == 0
  }

  // One sample after the one before it.
  predicate Follows(previous: Sample, s: Sample, interval: int) {
    && previous.elapsed < s.elapsed <= previous.elapsed + 2 * interval
    && previous.generation <= s.generation <= previous.generation + 1
    && (s.generation == previous.generation ==> previous.inbound <= s.inbound && previous.outbound <= s.outbound)
  }

  /** The neighbour-by-neighbour rules of the series. */
  ghost predicate SeriesOk(samples: seq<Sample>, duration: int, interval: int) {
    && samples != []
    && (forall i :: 0 <= i < |samples| ==> SampleOk(samples[i]))
    && samples[0].generation == 1
    && (forall i :: 0 < i < |samples| ==> Follows(samples[i - 1], samples[i], interval))
    && samples[0].elapsed <= interval
    && samples[|samples| - 1].elapsed >= duration - interval
    && samples[|samples| - 1].connections == 0
    && exists i :: 0 <= i < |samples| && samples[i].inbound > 0 && samples[i].outbound > 0
  }

  method ValidateSeries(samples: seq<Sample>, duration: int, interval: int) returns (ok: bool)
    requires samples != []
    ensures ok <==> SeriesOk(samples, duration, interval)
  {
    var previousElapsed, previousGeneration, previousInbound, previousOutbound := -1, 0, 0, 0;
    var index := 0;
    while index < |samples|
      invariant 0 <= index <= |samples|
      invariant if index == 0 then previousElapsed == -1 && previousGeneration == 0
                else var p := samples[index - 1];
                     && previousElapsed == p.elapsed && previousGeneration == p.generation
                     && previousInbound == p.inbound && previousOutbound == p.outbound
      invariant forall i :: 0 <= i < index ==> SampleOk(samples[i])
      invariant index > 0 ==> samples[0].generation == 1
      invariant forall i :: 0 < i < index ==> Follows(samples[i - 1], samples[i], interval)
    {
      var s := samples[index];
      if s.elapsed < 0 || s.generation < 0 || s.connections < 0 || s.inbound < 0 || s.outbound < 0 { return false; }
      if s.memory <= 0 || s.threads <= 0 || s.generation == 0 { return false; }
      if s.elapsed <= previousElapsed { return false; }
      if index > 0 && s.elapsed - previousElapsed > interval * 2 { return false; }
      if s.generation < previousGeneration || s.generation > previousGeneration + 1 { return false; }
      if s.generation == previousGeneration && (s.inbound < previousInbound || s.outbound < previousOutbound) {
        return false;
      }
      if s.fatalErrors != 0 || s.unrecovered != 0 { return false; }
      previousElapsed, previousGeneration, previousInbound, previousOutbound :=
        s.elapsed, s.generation, s.inbound, s.outbound;
      index := index + 1;
    }
    if samples[0].elapsed > interval { return false; }
    if samples[|samples| - 1].elapsed < duration - interval { return false; }
    if samples[|samples| - 1].connections != 0 { return false; }
    ok := exists i :: 0 <= i < |samples| && samples[i].inbound > 0 && samples[i].outbound > 0;
  }

  // The last sample taken no later than t.
  lemma {:induction false} LastBefore(samples: seq<Sample>, t: real, n: nat) returns (k: nat)
    requires 0 < n <= |samples| && samples[0].elapsed as real <= t
    ensures k < n && samples[k].elapsed as real <= t
    ensures k + 1 < n ==> t < samples[k + 1].elapsed as real
  {
    if n == 1 || samples[n - 1].elapsed as real <= t {
      k := n - 1;
    } else {
      k := LastBefore(samples, t, n - 1);
    }
  }

  /** Every instant of the soak lies within one sampling interval of some sample. */
  lemma EveryInstantCovered(samples: seq<Sample>, duration: int, interval: int, t: real)
    requires SeriesOk(samples, duration, interval) && 0.0 <= t <= duration as real
    ensures exists k :: 0 <= k < |samples| && -(interval as real) <= t - samples[k].elapsed as real <= interval as real
  {
    if t < samples[0].elapsed as real {
      assert -(interval as real) <= t - samples[0].elapsed as real <= interval as real;
    } else {
      var k := LastBefore(samples, t, |samples|);
      if k + 1 == |samples| {
        assert t - samples[k].elapsed as real <= interval as real;
      } else {
        assert Follows(samples[k], samples[k + 1], interval);
        assert t - samples[k].elapsed as real <= interval as real ||
               samples[k + 1].elapsed as real - t <= interval as real;
      }
    }
  }

  /** Runtime generations never fall, and every one from 1 to the last occurs. */
  lemma {:induction false} GenerationsHaveNoGaps(samples: seq<Sample>, duration: int, interval: int, g: int, n: nat)
    requires SeriesOk(samples, duration, interval) && 0 < n <= |samples|
    requires 1 <= g <= samples[n - 1].generation
    ensures exists k :: 0 <= k < n && samples[k].generation == g
    decreases n
  {
    if samples[n - 1].generation != g {
      assert n > 1;
      assert Follows(samples[n - 2], samples[n - 1], interval);
      GenerationsHaveNoGaps(samples, duration, interval, g, n - 1);
    }
  }

  /** Between any two samples of one generation, not just neighbours, time rises and packet
      counters do not fall. */
  lemma {:induction false} CountersRiseWithinGeneration(samples: seq<Sample>, duration: int, interval: int,
                                                       i: nat, j: nat)
    requires SeriesOk(samples, duration, interval) && i < j < |samples|
    ensures samples[i].elapsed < samples[j].elapsed && samples[i].generation <= samples[j].generation
    ensures samples[i].generation == samples[j].generation ==>
              samples[i].inbound <= samples[j].inbound && samples[i].outbound <= samples[j].outbound
    decreases j
  {
    assert Follows(samples[j - 1], samples[j], interval);
    if i < j - 1 {
      CountersRiseWithinGeneration(samples, duration, interval, i, j - 1);
    }
  }
}
