/**
 The builder's output meets the release checker.
 */
module ReleaseGate {
  import opened Decimals
  import opened Timeline
  import opened ReportBuilder
  import opened AcceptedTimelines
  import opened MobileEvidence

  function Tail(): string {
    " failed attempt(s); see " + "the checksum-verified " + "transition timeline."
  }

  function NotesFor(entry: Entry): string {
    Decimal(entry.passed) + " passed and " + Decimal(entry.failed) + Tail()
  }

  function Render(entry: Entry): RawScenario {
    RawScenario(true, Text(entry.id), Literal(PassedWord), Int(entry.passed), Text(NotesFor(entry)), false)
  }

  function RenderAll(entries: seq<Entry>): seq<RawScenario> {
    seq(|entries|, i requires 0 <= i < |entries| => Render(entries[i]))
  }

  lemma {:induction false} DecimalClean(n: nat)
    ensures |Decimal(n)| >= 1 && NoControl(Decimal(n))
  {
    if n >= 10 {
      DecimalClean(n / 10);
    }
  }

  lemma NoControlConcat(a: string, b: string)
    requires NoControl(a) && NoControl(b)
    ensures NoControl(a + b)
  {
  }

  lemma TailPrintable()
    ensures |Tail()| == 66 && NoControl(Tail())
  {
    NoControlConcat(" failed attempt(s); see ", "the checksum-verified ");
    NoControlConcat(" failed attempt(s); see " + "the checksum-verified ", "transition timeline.");
  }

  /** The two counts leave room for the rest of the notes, whose limit is 4096 characters. */
  predicate ShortCounts(entry: Entry) {
    |Decimal(entry.passed)| + |Decimal(entry.failed)| <= 4096 - 78
  }

  lemma NotesMeasured(entry: Entry)
    ensures NoControl(NotesFor(entry)) && |NotesFor(entry)| == |Decimal(entry.passed)| + |Decimal(entry.failed)| + 78
  {
    DecimalClean(entry.passed);
    DecimalClean(entry.failed);
    TailPrintable();
    var p, f, tail := Decimal(entry.passed), Decimal(entry.failed), Tail();
    NoControlConcat(p, " passed and ");
    NoControlConcat(p + " passed and ", f);
    NoControlConcat(p + " passed and " + f, tail);
  }

  lemma {:induction false} MarkersAtMostEvents(events: seq<Event>, id: string, phase: Phase)
    ensures CountMarkers(events, id, phase) <= |events|
  {
    if events != [] { MarkersAtMostEvents(events[..|events| - 1], id, phase); }
  }

  lemma RenderedElementOk(entry: Entry)
    requires 1 <= entry.passed && PrintableText(entry.id, 128)
    ensures ElementOk(Render(entry)) <==> ShortCounts(entry)
  {
    NotesMeasured(entry);
    var raw := Render(entry);
    assert StringValue(raw.notes, 4096) <==> ShortCounts(entry);
    assert NoControl(entry.id);
  }

  lemma RenderedListPasses(pol: Policy, entries: seq<Entry>)
    requires pol.Valid() && |entries| == |pol.required|
    requires forall i :: 0 <= i < |entries| ==>
               entries[i].id == pol.required[i].0 && pol.required[i].1 <= entries[i].passed
    ensures CoversPolicy(pol, RenderAll(entries)) <==> forall i :: 0 <= i < |entries| ==> ShortCounts(entries[i])
  {
    var raws := RenderAll(entries);
    forall i | 0 <= i < |raws|
      ensures (ElementOk(raws[i]) <==> ShortCounts(entries[i])) && Named(pol, raws[i].id)
    {
      RenderedElementOk(entries[i]);
    }
    forall k | 0 <= k < |pol.required| ensures Reports(raws, pol.required[k].0, pol.required[k].1) {
      assert raws[k].id == Text(pol.required[k].0);
    }
    if CoversPolicy(pol, raws) {
      forall i | 0 <= i < |entries| ensures ShortCounts(entries[i]) {
        assert ElementOk(raws[i]);
      }
    }
  }

  /** The scenario list of an accepted timeline satisfies the release checker exactly when each
      pair of counts is short enough to print. */
  lemma AcceptedReportPassesIff(pol: Policy, meta: Meta, events: seq<Event>)
    requires pol.Valid() && Build(pol, meta, events).Ok?
    ensures var entries := Build(pol, meta, events).value;
            CoversPolicy(pol, RenderAll(entries)) <==> forall i :: 0 <= i < |entries| ==> ShortCounts(entries[i])
  {
    ReportCountsMarkers(pol, meta, events);
    hide CoversPolicy, RenderAll, Build;
    RenderedListPasses(pol, Build(pol, meta, events).value);
  }

  /** In particular for every timeline of fewer than 10^2009 events. */
  lemma AcceptedReportPassesGate(pol: Policy, meta: Meta, events: seq<Event>)
    requires pol.Valid() && Build(pol, meta, events).Ok? && |events| < Pow10(2009)
    ensures CoversPolicy(pol, RenderAll(Build(pol, meta, events).value))
  {
    AcceptedReportPassesIff(pol, meta, events);
    ReportCountsMarkers(pol, meta, events);
    var entries := Build(pol, meta, events).value;
    hide CoversPolicy, RenderAll, Build;
    forall i | 0 <= i < |entries|
      ensures ShortCounts(entries[i])
    {
      MarkersAtMostEvents(events, pol.required[i].0, Passed);
      MarkersAtMostEvents(events, pol.required[i].0, Failed);
      DecimalShort(entries[i].passed, 2009);
      DecimalShort(entries[i].failed, 2009);
    }
  }
}
