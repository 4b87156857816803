/**
 The publication checker's parser of a benchmark invocation, against the
 canonical command line of a scenario.
 */
module Invocation {

  datatype Flag =
    | Engine | Workload | DurationMs | SampleIntervalMs | RunTimeoutMs | Connections | Iterations | PayloadSize
    | StreamTransport | Traffic | XhttpMode | XhttpProfile | XhttpMaxPostBytes | SettleMs
    | Transport | DnsUpstreamTransport | Runs | OutDir | XrayRustBin | XrayCoreBin
    | SingBoxBin | XrayCoreDir | SingBoxDir | SkipSingBox | NoAutoBuild | GeodataDir

  /** One argument text: one of the known flags, any other text that starts with two dashes, or
      any other text. */
  datatype Arg = Known(flag: Flag) | Dashed(text: string) | Plain(text: string)

  datatype Value = Yes | Text(text: string)

  datatype Scenario = Scenario(
    streamTransport: bool, xhttpMode: bool, xhttpProfile: bool, maxPostBytes: bool,
    supportsSingBox: bool, skipSingBox: bool, geodata: bool)

  datatype Reason = NotRun | UnexpectedFlag | DuplicateFlag | NotCanonical

  datatype Result<T> = Ok(value: T) | Err(reason: Reason)

  type Values = map<Flag, Value>

  const RUN := Plain("run")

  predicate Boolean(flag: Flag) {
    flag.SkipSingBox? || flag.NoAutoBuild?
  }

  // ---- The canonical flags of a scenario

  function Rank(flag: Flag): nat {
    match flag
    case Engine => 0 case Workload => 1 case DurationMs => 2 case SampleIntervalMs => 3
    case RunTimeoutMs => 4 case Connections => 5 case Iterations => 6 case PayloadSize => 7
    case StreamTransport => 8 case Traffic => 9 case XhttpMode => 10 case XhttpProfile => 11
    case XhttpMaxPostBytes => 12 case SettleMs => 13
    case Transport => 14 case DnsUpstreamTransport => 15 case Runs => 16 case OutDir => 17
    case XrayRustBin => 18 case XrayCoreBin => 19
    case SingBoxBin => 20 case XrayCoreDir => 21 case SingBoxDir => 22
    case SkipSingBox => 23 case NoAutoBuild => 24 case GeodataDir => 25
  }

  /** The flags a scenario's command line carries. */
  predicate Wanted(sc: Scenario, flag: Flag) {
    match flag
    case StreamTransport => sc.streamTransport
    case Traffic => sc.streamTransport
    case XhttpMode => sc.streamTransport && sc.xhttpMode
    case XhttpProfile => sc.streamTransport && sc.xhttpProfile
    case XhttpMaxPostBytes => sc.streamTransport && sc.maxPostBytes
    case SettleMs => sc.streamTransport
    case SingBoxBin => sc.supportsSingBox
    case SingBoxDir => sc.supportsSingBox
    case SkipSingBox => sc.skipSingBox
    case GeodataDir => sc.geodata
    case _ => true
  }

  predicate Distinct(flags: seq<Flag>) {
    forall i, j :: 0 <= i < j < |flags| ==> flags[i] != flags[j]
  }

  predicate Increasing(flags: seq<Flag>) {
    forall i, j :: 0 <= i < j < |flags| ==> Rank(flags[i]) < Rank(flags[j])
  }

  /** The flags in canonical order: exactly the wanted ones, by increasing rank. */
  ghost predicate Canonical(sc: Scenario, flags: seq<Flag>) {
    Increasing(flags) && forall flag :: flag in flags <==> Wanted(sc, flag)
  }

  // The wanted flags of rank below the bound have been listed.
  ghost predicate Listed(sc: Scenario, flags: seq<Flag>, bound: nat) {
    Increasing(flags) && forall flag :: flag in flags <==> Rank(flag) < bound && Wanted(sc, flag)
  }

  // The list holds exactly the wanted flags of rank between the bounds.
  ghost predicate Covers(sc: Scenario, next: seq<Flag>, from: nat, to: nat) {
    Increasing(next) && forall flag :: flag in next <==> from <= Rank(flag) < to && Wanted(sc, flag)
  }

  lemma ListNext(sc: Scenario, flags: seq<Flag>, next: seq<Flag>, from: nat, to: nat)
    requires Listed(sc, flags, from) && Covers(sc, next, from, to) && from <= to
    ensures Listed(sc, flags + next, to)
  {
    hide Rank, Wanted;
    forall i, j | 0 <= i < j < |flags + next|
      ensures Rank((flags + next)[i]) < Rank((flags + next)[j])
    {
      if i < |flags| { assert flags[i] in flags; }
      if j >= |flags| { assert next[j - |flags|] in next; }
    }
  }

  const CORE := [Engine, Workload, DurationMs, SampleIntervalMs, RunTimeoutMs, Connections, Iterations, PayloadSize]
  const STREAM_HEAD := [StreamTransport, Traffic]
  const COMMON := [Transport, DnsUpstreamTransport, Runs, OutDir, XrayRustBin, XrayCoreBin]

  lemma CoreListed(sc: Scenario)
    ensures Listed(sc, CORE, 8)
  {
    CoreIncreases();
    hide Increasing;
  }

  lemma CoreIncreases()
    ensures Increasing(CORE)
  {
  }

  lemma CommonCovers(sc: Scenario)
    ensures Covers(sc, COMMON, 14, 20)
  {
    CommonIncreases();
    hide Increasing;
  }

  lemma CommonIncreases()
    ensures Increasing(COMMON)
  {
  }

  lemma HeadCovers(sc: Scenario)
    requires sc.streamTransport
    ensures Covers(sc, STREAM_HEAD, 8, 10)
  {
  }

  // The part of the list only a stream-transport workload has.
  method StreamFlags(sc: Scenario, before: seq<Flag>) returns (flags: seq<Flag>)
    requires Listed(sc, before, 8) && sc.streamTransport
    ensures Listed(sc, flags, 14)
  {
    HeadCovers(sc);
    hide Listed, Covers;
    ListNext(sc, before, STREAM_HEAD, 8, 10);
    flags := before + STREAM_HEAD;
    flags := ListIf(sc, flags, XhttpMode, sc.xhttpMode);
    flags := ListIf(sc, flags, XhttpProfile, sc.xhttpProfile);
    flags := ListIf(sc, flags, XhttpMaxPostBytes, sc.maxPostBytes);
    flags := ListIf(sc, flags, SettleMs, true);
  }

  method ListIf(sc: Scenario, before: seq<Flag>, flag: Flag, wanted: bool) returns (flags: seq<Flag>)
    requires Listed(sc, before, Rank(flag)) && wanted == Wanted(sc, flag)
    ensures Listed(sc, flags, Rank(flag) + 1)
  {
    flags := before;
    if wanted {
      ListNext(sc, before, [flag], Rank(flag), Rank(flag) + 1);
      flags := flags + [flag];
    }
  }

  // The engine paths and switches that close the list.
  method BinaryFlags(sc: Scenario, before: seq<Flag>) returns (flags: seq<Flag>)
    requires Listed(sc, before, 20)
    ensures Listed(sc, flags, 26)
  {
    hide Listed;
    flags := before;
    flags := ListIf(sc, flags, SingBoxBin, sc.supportsSingBox);
    flags := ListIf(sc, flags, XrayCoreDir, true);
    flags := ListIf(sc, flags, SingBoxDir, sc.supportsSingBox);
    flags := ListIf(sc, flags, SkipSingBox, sc.skipSingBox);
    flags := ListIf(sc, flags, NoAutoBuild, true);
    flags := ListIf(sc, flags, GeodataDir, sc.geodata);
  }

  /** expected_invocation_flags: lists the scenario's flags in canonical order. */
  method ExpectedFlags(sc: Scenario) returns (flags: seq<Flag>)
    ensures Canonical(sc, flags)
  {
    CoreListed(sc);
    CommonCovers(sc);
    hide Listed, Covers;
    flags := CORE;
    if sc.streamTransport {
      flags := StreamFlags(sc, flags);
    } else {
      ListNone(sc, flags);
    }
    ListNext(sc, flags, COMMON, 14, 20);
    flags := flags + COMMON;
    flags := BinaryFlags(sc, flags);
    ListAll(sc, flags);
  }

  lemma ListNone(sc: Scenario, flags: seq<Flag>)
    requires Listed(sc, flags, 8) && !sc.streamTransport
    ensures Listed(sc, flags, 14)
  {
  }

  lemma ListAll(sc: Scenario, flags: seq<Flag>)
    requires Listed(sc, flags, 26)
    ensures Canonical(sc, flags)
  {
  }

  lemma IncreasingTail(a: seq<Flag>)
    requires Increasing(a) && a != []
    ensures Increasing(a[1..]) && forall flag :: flag in a[1..] <==> flag in a && flag != a[0]
  {
    hide Rank;
    assert forall i :: 1 <= i < |a| ==> a[i] in a[1..] && Rank(a[0]) < Rank(a[i]);
  }

  lemma {:induction false} IncreasingUnique(a: seq<Flag>, b: seq<Flag>)
    requires Increasing(a) && Increasing(b) && forall flag :: flag in a <==> flag in b
    ensures a == b
  {
    NoMembers(a);
    NoMembers(b);
    if a != [] {
      LeastFirst(a, b);
      IncreasingTail(a);
      IncreasingTail(b);
      IncreasingUnique(a[1..], b[1..]);
      assert a == [a[0]] + a[1..] && b == [b[0]] + b[1..];
    }
  }

  lemma NoMembers(flags: seq<Flag>)
    ensures (forall flag :: flag !in flags) ==> flags == []
  {
    if flags != [] {
      assert flags[0] in flags;
    }
  }

  lemma FirstIsLeast(a: seq<Flag>, flag: Flag)
    requires Increasing(a) && flag in a
    ensures flag == a[0] || Rank(a[0]) < Rank(flag)
  {
    hide Rank;
    var i :| 0 <= i < |a| && a[i] == flag;
  }

  lemma LeastFirst(a: seq<Flag>, b: seq<Flag>)
    requires Increasing(a) && Increasing(b) && (forall flag :: flag in a <==> flag in b) && a != [] && b != []
    ensures a[0] == b[0]
  {
    hide Rank, Increasing;
    FirstIsLeast(b, a[0]);
    FirstIsLeast(a, b[0]);
  }

  // ---- Parsing

  datatype Scanned = Scanned(order: seq<Flag>, values: Values)

  // What the loop makes of the remaining arguments, after the flags seen so far.
  function Scan(args: seq<Arg>, seen: Scanned): Result<Scanned> {
    if args == [] then Ok(seen)
    else if !args[0].Known? then Err(UnexpectedFlag)
    else
      var flag := args[0].flag;
      if flag in seen.values then Err(DuplicateFlag)
      else if Boolean(flag) then Scan(args[1..], Note(seen, flag, Yes))
      else if |args| < 2 || !args[1].Plain? then Err(NotCanonical)
      else Scan(args[2..], Note(seen, flag, Text(args[1].text)))
  }

  function Note(seen: Scanned, flag: Flag, value: Value): Scanned {
    Scanned(seen.order + [flag], seen.values[flag := value])
  }

  function Parse(invocation: seq<Arg>, expected: seq<Flag>): Result<Values>
    requires invocation != []
  {
    if invocation[0] != RUN then Err(NotRun)
    else
      var scanned := Scan(invocation[1..], Scanned([], map[]));
      if scanned.Err? then Err(scanned.reason)
      else if scanned.value.order != expected then Err(NotCanonical)
      else Ok(scanned.value.values)
  }

  lemma CanonicalUnique(sc: Scenario, a: seq<Flag>, b: seq<Flag>)
    requires Canonical(sc, a) && Canonical(sc, b)
    ensures a == b
  {
    hide Rank, Wanted;
    IncreasingUnique(a, b);
  }

  // ---- The canonical printer

  predicate Typed(flag: Flag, value: Value) {
    value.Yes? <==> Boolean(flag)
  }

  /** A value of the right kind for each of the flags and no others. */
  ghost predicate Complete(values: Values, flags: seq<Flag>) {
    && (forall flag :: flag in values <==> flag in flags)
    && (forall flag :: flag in values ==> Typed(flag, values[flag]))
  }

  ghost predicate Printable(values: Values, flags: seq<Flag>) {
    forall flag :: flag in flags ==> flag in values && Typed(flag, values[flag])
  }

  ghost function PrintFlag(flag: Flag, value: Value): seq<Arg> {
    if value.Yes? then [Known(flag)] else [Known(flag), Plain(value.text)]
  }

  ghost function Print(flags: seq<Flag>, values: Values): seq<Arg>
    requires Printable(values, flags)
  {
    if flags == [] then [] else PrintFlag(flags[0], values[flags[0]]) + Print(flags[1..], values)
  }

  ghost predicate Extends(seen: Scanned, out: Scanned, flags: seq<Flag>) {
    && out.order == seen.order + flags
    && (forall flag :: flag in out.values <==> flag in seen.values || flag in flags)
    && (forall flag :: flag in seen.values ==> out.values[flag] == seen.values[flag])
  }

  ghost function NoteAll(seen: Scanned, flags: seq<Flag>, values: Values): Scanned
    requires Printable(values, flags)
    decreases flags
  {
    if flags == [] then seen else NoteAll(Note(seen, flags[0], values[flags[0]]), flags[1..], values)
  }

  lemma {:induction false} NotedAll(seen: Scanned, flags: seq<Flag>, values: Values)
    requires Printable(values, flags)
    ensures var out := NoteAll(seen, flags, values);
            && out.order == seen.order + flags
            && (forall flag :: flag in out.values <==> flag in seen.values || flag in flags)
            && (forall flag :: flag in flags ==> out.values[flag] == values[flag])
            && (forall flag :: flag in seen.values && flag !in flags ==> out.values[flag] == seen.values[flag])
    decreases flags
  {
    if flags != [] {
      var next := Note(seen, flags[0], values[flags[0]]);
      NotedAll(next, flags[1..], values);
      assert next.order + flags[1..] == seen.order + flags;
    }
  }

  /** Scanning a printed list notes its flags and values. */
  lemma {:induction false} ScanPrinted(flags: seq<Flag>, values: Values, seen: Scanned)
    requires Printable(values, flags) && Distinct(flags)
    requires forall flag :: flag in flags ==> flag !in seen.values
    ensures Scan(Print(flags, values), seen) == Ok(NoteAll(seen, flags, values))
  {
    if flags != [] {
      var flag := flags[0];
      ScanOne(flag, values[flag], Print(flags[1..], values), seen);
      hide Scan, Boolean;
      assert forall f :: f in flags[1..] ==> f != flag;
      ScanPrinted(flags[1..], values, Note(seen, flag, values[flag]));
    }
  }

  lemma ScanOne(flag: Flag, value: Value, rest: seq<Arg>, seen: Scanned)
    requires Typed(flag, value) && flag !in seen.values
    ensures Scan(PrintFlag(flag, value) + rest, seen) == Scan(rest, Note(seen, flag, value))
  {
    var args := PrintFlag(flag, value) + rest;
    if value.Yes? {
      assert args[1..] == rest;
    } else {
      assert args[2..] == rest;
    }
  }

  // The scan of some arguments is accounted for by a list of flags.
  ghost predicate Explains(flags: seq<Flag>, args: seq<Arg>, seen: Scanned, out: Scanned) {
    && Extends(seen, out, flags) && Distinct(flags)
    && (forall flag :: flag in flags ==> flag !in seen.values)
    && Printable(out.values, flags) && args == Print(flags, out.values)
  }

  lemma ExplainsStep(flag: Flag, value: Value, tail: seq<Flag>, rest: seq<Arg>, seen: Scanned, out: Scanned)
    requires flag !in seen.values && Typed(flag, value)
    requires Explains(tail, rest, Note(seen, flag, value), out)
    ensures Explains([flag] + tail, PrintFlag(flag, value) + rest, seen, out)
  {
    var flags, next := [flag] + tail, Note(seen, flag, value);
    assert flags[1..] == tail;
    assert next.order + tail == seen.order + flags;
    assert flag in next.values && flag !in tail;
  }

  /** Whatever is scanned without an error was a printed list. */
  lemma {:induction false} ScannedIsPrinted(args: seq<Arg>, seen: Scanned) returns (flags: seq<Flag>)
    requires Scan(args, seen).Ok?
    ensures Explains(flags, args, seen, Scan(args, seen).value)
  {
    flags := [];
    if args != [] {
      hide Explains, Print;
      var flag := args[0].flag;
      var value := if Boolean(flag) then Yes else Text(args[1].text);
      var rest := if Boolean(flag) then args[1..] else args[2..];
      var tail := ScannedIsPrinted(rest, Note(seen, flag, value));
      ExplainsStep(flag, value, tail, rest, seen, Scan(args, seen).value);
      flags := [flag] + tail;
      assert args == PrintFlag(flag, value) + rest;
    }
  }

  lemma PrintedParses(flags: seq<Flag>, values: Values)
    requires Distinct(flags) && Complete(values, flags)
    ensures Parse([RUN] + Print(flags, values), flags) == Ok(values)
  {
    var start := Scanned([], map[]);
    assert ([RUN] + Print(flags, values))[1..] == Print(flags, values);
    ScanPrinted(flags, values, start);
    NotedAll(start, flags, values);
    hide Scan, Print, NoteAll;
    assert NoteAll(start, flags, values).values == values;
  }

  lemma ParsedIsPrinted(invocation: seq<Arg>, flags: seq<Flag>)
    requires invocation != [] && Parse(invocation, flags).Ok?
    ensures var values := Parse(invocation, flags).value;
            Complete(values, flags) && invocation == [RUN] + Print(flags, values)
  {
    var start := Scanned([], map[]);
    var printed := ScannedIsPrinted(invocation[1..], start);
    hide Scan, Print;
    assert start.order + printed == printed == flags;
    assert invocation == [RUN] + invocation[1..];
  }

  /** The parser accepts exactly the command lines the printer writes, and returns the values that
      were printed. */
  lemma ParseIffPrinted(invocation: seq<Arg>, flags: seq<Flag>, values: Values)
    requires invocation != [] && Distinct(flags)
    ensures Parse(invocation, flags) == Ok(values) <==>
            Complete(values, flags) && invocation == [RUN] + Print(flags, values)
  {
    hide Parse, Print;
    if Complete(values, flags) {
      PrintedParses(flags, values);
    }
    if Parse(invocation, flags) == Ok(values) {
      ParsedIsPrinted(invocation, flags);
    }
  }

  lemma CanonicalDistinct(sc: Scenario, flags: seq<Flag>)
    requires Canonical(sc, flags)
    ensures Distinct(flags)
  {
  }

  /** The arguments are a canonical command line of the scenario that carries these values. */
  ghost predicate CommandLine(invocation: seq<Arg>, sc: Scenario, values: Values) {
    exists flags :: Canonical(sc, flags) && Complete(values, flags) && invocation == [RUN] + Print(flags, values)
  }

  lemma AcceptsCommandLines(invocation: seq<Arg>, sc: Scenario, expected: seq<Flag>)
    requires invocation != [] && Canonical(sc, expected)
    ensures forall values :: Parse(invocation, expected) == Ok(values) <==> CommandLine(invocation, sc, values)
    ensures forall flags :: Canonical(sc, flags) ==> flags == expected
  {
    CanonicalDistinct(sc, expected);
    forall flags | Canonical(sc, flags)
      ensures flags == expected
    {
      CanonicalUnique(sc, flags, expected);
    }
    hide Parse, Print, Canonical;
    forall values
      ensures Parse(invocation, expected) == Ok(values) <==> CommandLine(invocation, sc, values)
    {
      ParseIffPrinted(invocation, expected, values);
    }
  }

  /** parse_invocation: accepts exactly the scenario's command lines and returns their values;
      each refusal is for the reason Parse gives. */
  method ParseInvocation(invocation: seq<Arg>, sc: Scenario) returns (r: Result<Values>)
    requires invocation != []
    ensures forall values :: r == Ok(values) <==> CommandLine(invocation, sc, values)
    ensures forall flags :: Canonical(sc, flags) ==> r == Parse(invocation, flags)
  {
    var expected := ExpectedFlags(sc);
    AcceptsCommandLines(invocation, sc, expected);
    hide Canonical, CommandLine;
    if invocation[0] != RUN { return Err(NotRun); }
    var values: Values, order: seq<Flag>, index := map[], [], 1;
    while index < |invocation|
      invariant 1 <= index <= |invocation|
      invariant Scan(invocation[index..], Scanned(order, values)) == Scan(invocation[1..], Scanned([], map[]))
    {
      var arg, rest := invocation[index], invocation[index..];
      assert rest[0] == arg && rest[1..] == invocation[index + 1..];
      if !arg.Known? { return Err(UnexpectedFlag); }
      if arg.flag in values { return Err(DuplicateFlag); }
      order := order + [arg.flag];
      if Boolean(arg.flag) {
        values := values[arg.flag := Yes];
        index := index + 1;
      } else {
        if index + 1 >= |invocation| || !invocation[index + 1].Plain? { return Err(NotCanonical); }
        assert rest[1] == invocation[index + 1] && rest[2..] == invocation[index + 2..];
        values := values[arg.flag := Text(invocation[index + 1].text)];
        index := index + 2;
      }
    }
    if order != expected { return Err(NotCanonical); }
    r := Ok(values);
  }
}
