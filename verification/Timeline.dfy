/**
 The transition timeline of an Apple device campaign: the JSON objects the
 runner and the marker append, and the scenario policy all tools read.

 A JSON object is a record with one slot per field name that any of the tools
 looks at, `Absent` where the object has no such field, and one flag for any
 further field. A string equal to one the tools compare with ("probe", "begin",
 ...) is a `Literal`; one that is an RFC 3339 UTC timestamp is a `Stamp`, its
 instant counted in microseconds (the resolution of Python's datetime); any
 other string is a `Text`. No scenario of a policy is named by such a word or
 timestamp. Notes and error codes are never compared with anything, so there a
 `Text` may spell any string.
 */
module Timeline {
  import opened Options

  datatype Json =
    | Absent
    | Null
    | Bool(b: bool)
    | Int(n: int)
    | Float(r: real)
    | Literal(word: Word)
    | Stamp(micros: int)
    | Text(s: string)
    | Container

  /** The strings the tools compare fields with. */
  datatype Word =
    | BuildStart | CampaignStart | CampaignEnd | Probe | Scenario
    | HttpWord | UdpWord
    | BeginWord | NoteWord | PassedWord | FailedWord

  datatype Field =
    | EventField | AtField | AttemptField | ElapsedField | NotesField | PhaseField
    | ScenarioIdField | KindField | ResultField | SequenceField | ErrorCodeField | OtherField

  datatype Event = Event(
    event: Json, at: Json, attempt: Json, elapsed: Json, notes: Json, phase: Json,
    scenarioId: Json, kind: Json, result: Json, sequence: Json, errorCode: Json, others: bool)
  {
    predicate Has(f: Field) {
      match f
      case EventField => !event.Absent?
      case AtField => !at.Absent?
      case AttemptField => !attempt.Absent?
      case ElapsedField => !elapsed.Absent?
      case NotesField => !notes.Absent?
      case PhaseField => !phase.Absent?
      case ScenarioIdField => !scenarioId.Absent?
      case KindField => !kind.Absent?
      case ResultField => !result.Absent?
      case SequenceField => !sequence.Absent?
      case ErrorCodeField => !errorCode.Absent?
      case OtherField => others
    }

    predicate HasExactly(fields: set<Field>) {
      forall f: Field :: Has(f) <==> f in fields
    }
  }

  const EmptyEvent :=
    Event(Absent, Absent, Absent, Absent, Absent, Absent, Absent, Absent, Absent, Absent, Absent, false)

  const StartFields := {EventField, AtField}
  const EndFields := {EventField, AtField, ElapsedField, ResultField}
  const PassedProbeFields := {AtField, ElapsedField, EventField, KindField, ResultField, SequenceField}
  const FailedProbeFields := {AtField, ElapsedField, ErrorCodeField, EventField, KindField, ResultField}
  const ScenarioFields :=
    {AtField, AttemptField, ElapsedField, EventField, NotesField, PhaseField, ScenarioIdField}

  datatype Kind = Http | Udp
  datatype Phase = Begin | Note | Passed | Failed

  function KindOf(j: Json): Option<Kind> {
    if j == Literal(HttpWord) then Some(Http)
    else if j == Literal(UdpWord) then Some(Udp)
    else None
  }

  function PhaseOf(j: Json): Option<Phase> {
    if j == Literal(BeginWord) then Some(Begin)
    else if j == Literal(NoteWord) then Some(Note)
    else if j == Literal(PassedWord) then Some(Passed)
    else if j == Literal(FailedWord) then Some(Failed)
    else None
  }

  function KindText(kind: Kind): (j: Json)
    ensures KindOf(j) == Some(kind)
  {
    match kind
    case Http => Literal(HttpWord)
    case Udp => Literal(UdpWord)
  }

  function PhaseText(phase: Phase): (j: Json)
    ensures PhaseOf(j) == Some(phase)
  {
    match phase
    case Begin => Literal(BeginWord)
    case Note => Literal(NoteWord)
    case Passed => Literal(PassedWord)
    case Failed => Literal(FailedWord)
  }

  // Python's `value == n` for an integer n: true and 1.0 equal 1.
  predicate EqualsInt(j: Json, n: int) {
    match j
    case Int(m) => m == n
    case Bool(b) => n == if b then 1 else 0
    case Float(r) => r == n as real
    case _ => false
  }

  // str.isprintable, exactly on Latin-1; every later code point counts as printable.
  predicate Printable(c: char) {
    var code := c as int;
    (0x20 <= code < 0x7f) || (0xa1 <= code && code != 0xad)
  }

  predicate PrintableText(s: string, maximum: nat) {
    0 < |s| <= maximum && forall i :: 0 <= i < |s| ==> Printable(s[i])
  }

  // require_string: the words and timestamps are short printable strings.
  predicate PrintableString(j: Json, maximum: nat) {
    j.Literal? || j.Stamp? || (j.Text? && PrintableText(j.s, maximum))
  }

  predicate CodeChar(c: char) {
    'A' <= c <= 'Z' || 'a' <= c <= 'z' || '0' <= c <= '9' || c == '.' || c == '_' || c == '-'
  }

  // ^[A-Za-z0-9._-]{1,128}$, the shape of a probe error code in the runner and in the builder.
  predicate ErrorCode(s: string) {
    1 <= |s| <= 128 && forall i :: 0 <= i < |s| ==> CodeChar(s[i])
  }

  // The words have the shape of an error code; a timestamp, with its colons, has not.
  predicate CodeString(j: Json) {
    j.Literal? || (j.Text? && ErrorCode(j.s))
  }

  const SECOND: int := 1_000_000

  // Python's datetime at whole-second precision: isoformat(timespec="seconds").
  function WholeSecond(now: int): (at: int)
    ensures at <= now < at + SECOND && at % SECOND == 0
  {
    now - now % SECOND
  }

  // max(0, int((now - started).total_seconds())): int truncates toward zero.
  function ElapsedSince(started: int, now: int): (elapsed: nat)
    ensures started <= now ==> elapsed * SECOND <= now - started < (elapsed + 1) * SECOND
    ensures now < started ==> elapsed == 0
  {
    if now < started then 0 else (now - started) / SECOND
  }

  /** The scenario policy: required attempts per scenario in dictionary order, and the
      scenarios whose passes need probe evidence. */
  datatype Policy = Policy(required: seq<(string, nat)>, probeOracles: set<string>, outageOracles: set<string>)
  {
    ghost function Ids(): set<string> {
      set i | 0 <= i < |required| :: required[i].0
    }

    ghost predicate Valid() {
      && (forall i, j :: 0 <= i < j < |required| ==> required[i].0 != required[j].0)
      && (forall i :: 0 <= i < |required| ==> required[i].1 >= 1 && PrintableText(required[i].0, 128))
      && probeOracles <= Ids()
      && outageOracles <= probeOracles
    }

    predicate Requires(id: string) {
      exists i :: 0 <= i < |required| && required[i].0 == id
    }
  }

  datatype Key = Key(id: string, attempt: int)
  datatype AttemptState = Running | Ended(passed: bool)

  function Lookup<K>(m: map<K, int>, k: K, default: int): int {
    if k in m then m[k] else default
  }

  function Find<K, V>(m: map<K, V>, k: K): Option<V> {
    if k in m then Some(m[k]) else None
  }
}
