/**
 The flat string lists in which envelopes cross the stream: name, value, name, value, and so on. The
 event or payload is JSON; a number is written by String and read by Number, which are parameters.
 */
module EnvelopeCodec {
  import opened Wrappers
  import opened Characters
  import Json

  const DURABLE := "durable.v2"

  /** String(n), Number(text), NaN and 0. */
  datatype Numbers<!N(==)> = Numbers(toText: N -> string, ofText: string -> N, notANumber: N, zero: N)

  /** Every number but -0 reads back: String(-0) is "0". */
  predicate ReadsBack<N(==)>(nums: Numbers<N>, n: N) {
    nums.ofText(nums.toText(n)) == n
  }

  /** What the validators throw for. */
  datatype Problem = UnsupportedProtocol | MissingClaim | BadProvider | BadField(key: Key)

  datatype Decoded<+E> = Envelope(value: E) | NotThisFormat | Thrown(problem: Problem)

  // ---------------------------------------------------------------- names

  datatype Key =
    | JobId | SessionId | WorkspaceId | ThreadId | Timestamp | SequenceNumber | SequenceProtocolVersion
    | ClaimAttemptId | ProtocolVersion | SchemaVersion | EventId | TurnId | CausationId | CorrelationId
    | SourceRuntime | OccurredAt | Event | Format
    | NativeEventType | SourceFormat | Payload | Provider | CodingAgent | AiProvider | Model | RuntimeSessionId
    | EmittedAt

  function Name(k: Key): string {
    match k
    case JobId => "jobId"
    case SessionId => "sessionId"
    case WorkspaceId => "workspaceId"
    case ThreadId => "threadId"
    case Timestamp => "timestamp"
    case SequenceNumber => "sequenceNumber"
    case SequenceProtocolVersion => "sequenceProtocolVersion"
    case ClaimAttemptId => "claimAttemptId"
    case ProtocolVersion => "protocolVersion"
    case SchemaVersion => "schemaVersion"
    case EventId => "eventId"
    case TurnId => "turnId"
    case CausationId => "causationId"
    case CorrelationId => "correlationId"
    case SourceRuntime => "sourceRuntime"
    case OccurredAt => "occurredAt"
    case Event => "event"
    case Format => "_format"
    case NativeEventType => "nativeEventType"
    case SourceFormat => "sourceFormat"
    case Payload => "payload"
    case Provider => "provider"
    case CodingAgent => "codingAgent"
    case AiProvider => "aiProvider"
    case Model => "model"
    case RuntimeSessionId => "runtimeSessionId"
    case EmittedAt => "emittedAt"
  }

  /** Length, then first, third and last but one letter, tell the names apart. */
  function Mark(s: string): (nat, char, char, char) {
    if |s| < 5 then (|s|, 'x', 'x', 'x') else (|s|, s[0], s[2], s[|s| - 2])
  }

  function MarkOf(k: Key): (nat, char, char, char) {
    match k
    case JobId => (5, 'j', 'b', 'I')
    case SessionId => (9, 's', 's', 'I')
    case WorkspaceId => (11, 'w', 'r', 'I')
    case ThreadId => (8, 't', 'r', 'I')
    case Timestamp => (9, 't', 'm', 'm')
    case SequenceNumber => (14, 's', 'q', 'e')
    case SequenceProtocolVersion => (23, 's', 'q', 'o')
    case ClaimAttemptId => (14, 'c', 'a', 'I')
    case ProtocolVersion => (15, 'p', 'o', 'o')
    case SchemaVersion => (13, 's', 'h', 'o')
    case EventId => (7, 'e', 'e', 'I')
    case TurnId => (6, 't', 'r', 'I')
    case CausationId => (11, 'c', 'u', 'I')
    case CorrelationId => (13, 'c', 'r', 'I')
    case SourceRuntime => (13, 's', 'u', 'm')
    case OccurredAt => (10, 'o', 'c', 'A')
    case Event => (5, 'e', 'e', 'n')
    case Format => (7, '_', 'o', 'a')
    case NativeEventType => (15, 'n', 't', 'p')
    case SourceFormat => (12, 's', 'u', 'a')
    case Payload => (7, 'p', 'y', 'a')
    case Provider => (8, 'p', 'o', 'e')
    case CodingAgent => (11, 'c', 'd', 'n')
    case AiProvider => (10, 'a', 'P', 'e')
    case Model => (5, 'm', 'd', 'e')
    case RuntimeSessionId => (16, 'r', 'n', 'I')
    case EmittedAt => (9, 'e', 'i', 'A')
  }

  lemma NameMark(k: Key)
    ensures Mark(Name(k)) == MarkOf(k)
  {
  }

  lemma MarksDiffer(j: Key, k: Key)
    ensures MarkOf(j) == MarkOf(k) ==> j == k
  {
  }

  lemma NamesDiffer(j: Key, k: Key)
    requires Name(j) == Name(k)
    ensures j == k
  {
    hide Name, MarkOf, Mark;
    NameMark(j);
    NameMark(k);
    MarksDiffer(j, k);
  }

  // ---------------------------------------------------------------- fields

  /** A value in the map of a flat list, whose later pairs win; a last name without a value is skipped. */
  function Find(fields: seq<string>, name: string): Option<string> {
    if |fields| < 2 then None
    else
      var n := if |fields| % 2 == 0 then |fields| else |fields| - 1;
      if fields[n - 2] == name then Some(fields[n - 1]) else Find(fields[..n - 2], name)
  }

  function Get(fields: seq<string>, k: Key): Option<string> {
    Find(fields, Name(k))
  }

  function Put(fields: seq<string>, k: Key, v: string): seq<string> {
    fields + [Name(k), v]
  }

  /** An optional field is written only if it is truthy. */
  function PutSome(fields: seq<string>, k: Key, v: Option<string>): seq<string> {
    if v.Some? && v.value != "" then Put(fields, k, v.value) else fields
  }

  function Truthy(v: Option<string>): Option<string> {
    if v == Some("") then None else v
  }

  /** Whole pairs only. */
  predicate Even(fields: seq<string>) {
    |fields| % 2 == 0
  }

  lemma GetPut(fields: seq<string>, k: Key, v: string)
    requires Even(fields)
    ensures Even(Put(fields, k, v))
    ensures forall j :: Get(Put(fields, k, v), j) == if j == k then Some(v) else Get(fields, j)
  {
    hide Name;
    var all := Put(fields, k, v);
    assert all[..|all| - 2] == fields;
    forall j ensures Get(all, j) == if j == k then Some(v) else Get(fields, j) {
      if Name(j) == Name(k) {
        NamesDiffer(j, k);
      }
    }
  }

  lemma GetPutSome(fields: seq<string>, k: Key, v: Option<string>)
    requires Even(fields)
    ensures Even(PutSome(fields, k, v))
    ensures forall j :: Get(PutSome(fields, k, v), j) ==
                        if j == k && Truthy(v).Some? then v else Get(fields, j)
  {
    hide Get;
    if v.Some? && v.value != "" {
      GetPut(fields, k, v.value);
    }
  }

  /** The loop of both deserialisers. */
  method ReadFields(fields: seq<string>) returns (m: map<string, string>)
    ensures forall name :: Find(fields, name) == if name in m then Some(m[name]) else None
  {
    m := map[];
    var i := 0;
    while i < |fields|
      invariant 0 <= i <= |fields| + 1 && i % 2 == 0
      invariant i <= |fields| ==> forall name :: Find(fields[..i], name) == if name in m then Some(m[name]) else None
      invariant i > |fields| ==> forall name :: Find(fields, name) == if name in m then Some(m[name]) else None
    {
      if i + 1 < |fields| {
        assert fields[..i + 2][..i] == fields[..i];
        m := m[fields[i] := fields[i + 1]];
      } else {
        LoneName(fields, i);
      }
      i := i + 2;
    }
    assert i == |fields| ==> fields[..i] == fields;
  }

  lemma LoneName(fields: seq<string>, i: nat)
    requires i % 2 == 0 && |fields| == i + 1
    ensures forall name :: Find(fields, name) == Find(fields[..i], name)
  {
    forall name ensures Find(fields, name) == Find(fields[..i], name) {
      if i > 0 {
        assert fields[..i][..i - 2] == fields[..i - 2];
      }
    }
  }

  // ---------------------------------------------------------------- validity

  predicate Blank(s: string) {
    forall i | 0 <= i < |s| :: IsSpace(s[i])
  }

  function ProtocolProblem(version: Option<string>, claim: Option<string>): Option<Problem> {
    if version.None? && claim.None? then None
    else if version != Some(DURABLE) then Some(UnsupportedProtocol)
    else if claim.None? || Blank(claim.value) then Some(MissingClaim)
    else None
  }

  predicate IsInfrastructure(provider: string) {
    provider == "claude-code" || provider == "codex" || provider == "zipu" || provider == "grok"
  }

  function Limit(k: Key): nat {
    match k
    case NativeEventType => 120
    case SourceFormat => 50
    case RuntimeSessionId => 255
    case EmittedAt => 64
    case _ => 256
  }

  predicate OutOfBounds(k: Key, v: Option<string>) {
    v.Some? && (v.value == "" || |v.value| > Limit(k))
  }

  function MetadataProblem(nativeEventType: Option<string>, sourceFormat: Option<string>, provider: Option<string>,
                           codingAgent: Option<string>, aiProvider: Option<string>, model: Option<string>,
                           runtimeSessionId: Option<string>, emittedAt: Option<string>): Option<Problem> {
    if provider.Some? && !IsInfrastructure(provider.value) then Some(BadProvider)
    else if OutOfBounds(NativeEventType, nativeEventType) then Some(BadField(NativeEventType))
    else if OutOfBounds(SourceFormat, sourceFormat) then Some(BadField(SourceFormat))
    else if OutOfBounds(CodingAgent, codingAgent) then Some(BadField(CodingAgent))
    else if OutOfBounds(AiProvider, aiProvider) then Some(BadField(AiProvider))
    else if OutOfBounds(Model, model) then Some(BadField(Model))
    else if OutOfBounds(RuntimeSessionId, runtimeSessionId) then Some(BadField(RuntimeSessionId))
    else if OutOfBounds(EmittedAt, emittedAt) then Some(BadField(EmittedAt))
    else None
  }

  // ---------------------------------------------------------------- the fields both formats share

  datatype Header<N(==)> = Header(
    jobId: string, sessionId: string, workspaceId: string, threadId: string,
    timestamp: N, sequenceNumber: N,
    sequenceProtocolVersion: Option<string>, claimAttemptId: Option<string>)

  function WriteHeader<N(==)>(nums: Numbers<N>, h: Header<N>): seq<string> {
    var f0 := Put([], JobId, h.jobId);
    var f1 := Put(f0, SessionId, h.sessionId);
    var f2 := Put(f1, WorkspaceId, h.workspaceId);
    var f3 := Put(f2, ThreadId, h.threadId);
    var f4 := Put(f3, Timestamp, nums.toText(h.timestamp));
    var f5 := Put(f4, SequenceNumber, nums.toText(h.sequenceNumber));
    var f6 := if h.sequenceProtocolVersion == Some(DURABLE) then Put(f5, SequenceProtocolVersion, DURABLE) else f5;
    PutSome(f6, ClaimAttemptId, h.claimAttemptId)
  }

  function HeaderField<N(==)>(nums: Numbers<N>, h: Header<N>, k: Key): Option<string> {
    match k
    case JobId => Some(h.jobId)
    case SessionId => Some(h.sessionId)
    case WorkspaceId => Some(h.workspaceId)
    case ThreadId => Some(h.threadId)
    case Timestamp => Some(nums.toText(h.timestamp))
    case SequenceNumber => Some(nums.toText(h.sequenceNumber))
    case SequenceProtocolVersion => if h.sequenceProtocolVersion == Some(DURABLE) then Some(DURABLE) else None
    case ClaimAttemptId => Truthy(h.claimAttemptId)
    case _ => None
  }

  lemma HeaderHolds<N>(nums: Numbers<N>, h: Header<N>)
    ensures Even(WriteHeader(nums, h))
    ensures forall k :: Get(WriteHeader(nums, h), k) == HeaderField(nums, h, k)
  {
    hide Get, Put, PutSome;
    var f0 := Put([], JobId, h.jobId);
    var f1 := Put(f0, SessionId, h.sessionId);
    var f2 := Put(f1, WorkspaceId, h.workspaceId);
    var f3 := Put(f2, ThreadId, h.threadId);
    var f4 := Put(f3, Timestamp, nums.toText(h.timestamp));
    var f5 := Put(f4, SequenceNumber, nums.toText(h.sequenceNumber));
    var f6 := if h.sequenceProtocolVersion == Some(DURABLE) then Put(f5, SequenceProtocolVersion, DURABLE) else f5;
    NothingThere();
    GetPut([], JobId, h.jobId);
    GetPut(f0, SessionId, h.sessionId);
    GetPut(f1, WorkspaceId, h.workspaceId);
    GetPut(f2, ThreadId, h.threadId);
    GetPut(f3, Timestamp, nums.toText(h.timestamp));
    GetPut(f4, SequenceNumber, nums.toText(h.sequenceNumber));
    GetPut(f5, SequenceProtocolVersion, DURABLE);
    GetPutSome(f6, ClaimAttemptId, h.claimAttemptId);
  }

  lemma NothingThere()
    ensures forall k :: Get([], k) == None
  {
  }

  function Else(v: Option<string>, other: string): string {
    if v.Some? then v.value else other
  }

  /** The header of a decoded envelope; absent: the sequence number if there is none in the list. */
  function ReadHeader<N(==)>(nums: Numbers<N>, fields: seq<string>, absent: N): Header<N> {
    Header(
      Else(Get(fields, JobId), ""), Else(Get(fields, SessionId), ""), Else(Get(fields, WorkspaceId), ""),
      Else(Get(fields, ThreadId), ""),
      if Get(fields, Timestamp).Some? then nums.ofText(Get(fields, Timestamp).value) else nums.zero,
      if Get(fields, SequenceNumber).Some? then nums.ofText(Get(fields, SequenceNumber).value) else absent,
      if Get(fields, SequenceProtocolVersion) == Some(DURABLE) then Some(DURABLE) else None,
      Truthy(Get(fields, ClaimAttemptId)))
  }

  // ---------------------------------------------------------------- canonical envelopes

  datatype Canonical<N(==)> = Canonical(
    header: Header<N>,
    protocolVersion: Option<string>, schemaVersion: Option<string>, eventId: Option<string>, turnId: Option<string>,
    causationId: Option<string>, correlationId: Option<string>, sourceRuntime: Option<string>,
    occurredAt: Option<string>, event: Json.Json)

  function FirstOptions<N(==)>(nums: Numbers<N>, e: Canonical<N>): seq<string> {
    var f0 := WriteHeader(nums, e.header);
    var f1 := PutSome(f0, ProtocolVersion, e.protocolVersion);
    var f2 := PutSome(f1, SchemaVersion, e.schemaVersion);
    var f3 := PutSome(f2, EventId, e.eventId);
    PutSome(f3, TurnId, e.turnId)
  }

  function CanonicalFields<N(==)>(nums: Numbers<N>, e: Canonical<N>): seq<string> {
    var f4 := FirstOptions(nums, e);
    var f5 := PutSome(f4, CausationId, e.causationId);
    var f6 := PutSome(f5, CorrelationId, e.correlationId);
    var f7 := PutSome(f6, SourceRuntime, e.sourceRuntime);
    var f8 := PutSome(f7, OccurredAt, e.occurredAt);
    Put(Put(f8, Event, Json.Text(e.event, false)), Format, "canonical")
  }

  function CanonicalField<N(==)>(nums: Numbers<N>, e: Canonical<N>, k: Key): Option<string> {
    match k
    case ProtocolVersion => Truthy(e.protocolVersion)
    case SchemaVersion => Truthy(e.schemaVersion)
    case EventId => Truthy(e.eventId)
    case TurnId => Truthy(e.turnId)
    case CausationId => Truthy(e.causationId)
    case CorrelationId => Truthy(e.correlationId)
    case SourceRuntime => Truthy(e.sourceRuntime)
    case OccurredAt => Truthy(e.occurredAt)
    case Event => Some(Json.Text(e.event, false))
    case Format => Some("canonical")
    case _ => HeaderField(nums, e.header, k)
  }

  lemma FirstOptionsHold<N>(nums: Numbers<N>, e: Canonical<N>)
    ensures Even(FirstOptions(nums, e))
    ensures forall k :: Get(FirstOptions(nums, e), k) ==
                        match k
                        case ProtocolVersion => Truthy(e.protocolVersion)
                        case SchemaVersion => Truthy(e.schemaVersion)
                        case EventId => Truthy(e.eventId)
                        case TurnId => Truthy(e.turnId)
                        case _ => HeaderField(nums, e.header, k)
  {
    hide Get, Put, PutSome, WriteHeader;
    var f0 := WriteHeader(nums, e.header);
    var f1 := PutSome(f0, ProtocolVersion, e.protocolVersion);
    var f2 := PutSome(f1, SchemaVersion, e.schemaVersion);
    var f3 := PutSome(f2, EventId, e.eventId);
    HeaderHolds(nums, e.header);
    GetPutSome(f0, ProtocolVersion, e.protocolVersion);
    GetPutSome(f1, SchemaVersion, e.schemaVersion);
    GetPutSome(f2, EventId, e.eventId);
    GetPutSome(f3, TurnId, e.turnId);
  }

  lemma CanonicalHolds<N>(nums: Numbers<N>, e: Canonical<N>)
    ensures Even(CanonicalFields(nums, e))
    ensures forall k :: Get(CanonicalFields(nums, e), k) == CanonicalField(nums, e, k)
  {
    hide Get, Put, PutSome, FirstOptions, Json.Text;
    var f4 := FirstOptions(nums, e);
    var f5 := PutSome(f4, CausationId, e.causationId);
    var f6 := PutSome(f5, CorrelationId, e.correlationId);
    var f7 := PutSome(f6, SourceRuntime, e.sourceRuntime);
    var f8 := PutSome(f7, OccurredAt, e.occurredAt);
    FirstOptionsHold(nums, e);
    GetPutSome(f4, CausationId, e.causationId);
    GetPutSome(f5, CorrelationId, e.correlationId);
    GetPutSome(f6, SourceRuntime, e.sourceRuntime);
    GetPutSome(f7, OccurredAt, e.occurredAt);
    GetPut(f8, Event, Json.Text(e.event, false));
    GetPut(Put(f8, Event, Json.Text(e.event, false)), Format, "canonical");
  }

  function SerializeCanonical<N(==)>(nums: Numbers<N>, e: Canonical<N>): Result<seq<string>, Problem> {
    var problem := ProtocolProblem(e.header.sequenceProtocolVersion, e.header.claimAttemptId);
    if problem.Some? then Err(problem.value) else Ok(CanonicalFields(nums, e))
  }

  function DeserializeCanonical<N(==)>(nums: Numbers<N>, fields: seq<string>): Decoded<Canonical<N>> {
    var event := Get(fields, Event);
    if Get(fields, Format) != Some("canonical") || event.None? then NotThisFormat
    else
      var problem := ProtocolProblem(Get(fields, SequenceProtocolVersion), Get(fields, ClaimAttemptId));
      var parsed := Json.Parse(event.value);
      if problem.Some? then Thrown(problem.value)
      else if parsed.Fail? then NotThisFormat
      else
        Envelope(Canonical(
          ReadHeader(nums, fields, nums.notANumber),
          Truthy(Get(fields, ProtocolVersion)), Truthy(Get(fields, SchemaVersion)), Truthy(Get(fields, EventId)),
          Truthy(Get(fields, TurnId)), Truthy(Get(fields, CausationId)), Truthy(Get(fields, CorrelationId)),
          Truthy(Get(fields, SourceRuntime)), Truthy(Get(fields, OccurredAt)), parsed.value))
  }

  /** The optional fields whose empty strings are not written. */
  function WithoutEmpty<N(==)>(e: Canonical<N>): Canonical<N> {
    Canonical(e.header, Truthy(e.protocolVersion), Truthy(e.schemaVersion), Truthy(e.eventId), Truthy(e.turnId),
              Truthy(e.causationId), Truthy(e.correlationId), Truthy(e.sourceRuntime), Truthy(e.occurredAt), e.event)
  }

  predicate NumbersReadBack<N(==)>(nums: Numbers<N>, h: Header<N>) {
    ReadsBack(nums, h.timestamp) && ReadsBack(nums, h.sequenceNumber)
  }

  lemma HeaderReadsBack<N>(nums: Numbers<N>, h: Header<N>, fields: seq<string>, absent: N)
    requires ProtocolProblem(h.sequenceProtocolVersion, h.claimAttemptId).None? && NumbersReadBack(nums, h)
    requires forall k | HeaderField(nums, h, k).Some? :: Get(fields, k) == HeaderField(nums, h, k)
    requires Get(fields, SequenceProtocolVersion) == HeaderField(nums, h, SequenceProtocolVersion)
    requires Get(fields, ClaimAttemptId) == HeaderField(nums, h, ClaimAttemptId)
    ensures ReadHeader(nums, fields, absent) == h
    ensures Get(fields, SequenceProtocolVersion) == h.sequenceProtocolVersion
    ensures Get(fields, ClaimAttemptId) == h.claimAttemptId
  {
    hide Get;
    assert HeaderField(nums, h, JobId).Some? && HeaderField(nums, h, SessionId).Some?;
    assert HeaderField(nums, h, WorkspaceId).Some? && HeaderField(nums, h, ThreadId).Some?;
    assert HeaderField(nums, h, Timestamp).Some? && HeaderField(nums, h, SequenceNumber).Some?;
  }

  /** A canonical envelope that serialises comes back as it was, without its empty optional strings; so
      it comes back unchanged exactly if it has none. */
  lemma CanonicalRoundTrip<N>(nums: Numbers<N>, e: Canonical<N>)
    requires SerializeCanonical(nums, e).Ok? && Json.ValidNumbers(e.event) && NumbersReadBack(nums, e.header)
    ensures DeserializeCanonical(nums, SerializeCanonical(nums, e).value) == Envelope(WithoutEmpty(e))
    ensures DeserializeCanonical(nums, SerializeCanonical(nums, e).value) == Envelope(e) <==> WithoutEmpty(e) == e
  {
    hide Get, CanonicalFields, CanonicalField, Json.Parse, Json.Text, Json.ValidNumbers, ReadHeader, NumbersReadBack;
    var fields := CanonicalFields(nums, e);
    CanonicalOptions(nums, e);
    CanonicalHeader(nums, e);
    Json.ParseWhole(e.event, false);
  }

  lemma CanonicalHeader<N>(nums: Numbers<N>, e: Canonical<N>)
    requires SerializeCanonical(nums, e).Ok? && NumbersReadBack(nums, e.header)
    ensures var fields := CanonicalFields(nums, e);
            && ReadHeader(nums, fields, nums.notANumber) == e.header
            && Get(fields, SequenceProtocolVersion) == e.header.sequenceProtocolVersion
            && Get(fields, ClaimAttemptId) == e.header.claimAttemptId
  {
    hide Get, CanonicalFields, ReadHeader, NumbersReadBack;
    CanonicalHolds(nums, e);
    HeaderReadsBack(nums, e.header, CanonicalFields(nums, e), nums.notANumber);
  }

  lemma CanonicalOptions<N>(nums: Numbers<N>, e: Canonical<N>)
    ensures var fields := CanonicalFields(nums, e);
            && Get(fields, ProtocolVersion) == Truthy(e.protocolVersion)
            && Get(fields, SchemaVersion) == Truthy(e.schemaVersion)
            && Get(fields, EventId) == Truthy(e.eventId)
            && Get(fields, TurnId) == Truthy(e.turnId)
            && Get(fields, CausationId) == Truthy(e.causationId)
            && Get(fields, CorrelationId) == Truthy(e.correlationId)
            && Get(fields, SourceRuntime) == Truthy(e.sourceRuntime)
            && Get(fields, OccurredAt) == Truthy(e.occurredAt)
            && Get(fields, Event) == Some(Json.Text(e.event, false))
            && Get(fields, Format) == Some("canonical")
  {
    hide Get, CanonicalFields, CanonicalField, Truthy, Json.Text;
    CanonicalHolds(nums, e);
    CanonicalValues(nums, e);
    MoreCanonicalValues(nums, e);
  }

  lemma CanonicalValues<N>(nums: Numbers<N>, e: Canonical<N>)
    ensures CanonicalField(nums, e, ProtocolVersion) == Truthy(e.protocolVersion)
    ensures CanonicalField(nums, e, SchemaVersion) == Truthy(e.schemaVersion)
    ensures CanonicalField(nums, e, EventId) == Truthy(e.eventId)
    ensures CanonicalField(nums, e, TurnId) == Truthy(e.turnId)
  {
    hide Truthy, Json.Text, HeaderField;
  }

  lemma MoreCanonicalValues<N>(nums: Numbers<N>, e: Canonical<N>)
    ensures CanonicalField(nums, e, CausationId) == Truthy(e.causationId)
    ensures CanonicalField(nums, e, CorrelationId) == Truthy(e.correlationId)
    ensures CanonicalField(nums, e, SourceRuntime) == Truthy(e.sourceRuntime)
    ensures CanonicalField(nums, e, OccurredAt) == Truthy(e.occurredAt)
    ensures CanonicalField(nums, e, Event) == Some(Json.Text(e.event, false))
    ensures CanonicalField(nums, e, Format) == Some("canonical")
  {
    hide Truthy, Json.Text, HeaderField;
  }

  /** What decodes can be encoded again and decodes to itself. */
  lemma DecodedCanonicalIsStable<N>(nums: Numbers<N>, fields: seq<string>)
    requires DeserializeCanonical(nums, fields).Envelope?
    requires NumbersReadBack(nums, DeserializeCanonical(nums, fields).value.header)
    ensures var e := DeserializeCanonical(nums, fields).value;
            && SerializeCanonical(nums, e).Ok?
            && DeserializeCanonical(nums, SerializeCanonical(nums, e).value) == Envelope(e)
  {
    hide Get, CanonicalFields, Json.ParseValue, Json.Text, Json.ValidNumbers, Json.SkipBlanks;
    var e := DeserializeCanonical(nums, fields).value;
    assert Blank("");
    Json.ParsedIsValid(Get(fields, Event).value);
    CanonicalRoundTrip(nums, e);
  }

  /** An envelope without a sequence field has no sequence number, rather than 0. */
  lemma AbsentSequenceIsNotANumber<N>(nums: Numbers<N>, fields: seq<string>)
    requires DeserializeCanonical(nums, fields).Envelope?
    ensures var e := DeserializeCanonical(nums, fields).value;
            if Get(fields, SequenceNumber).None? then e.header.sequenceNumber == nums.notANumber
            else e.header.sequenceNumber == nums.ofText(Get(fields, SequenceNumber).value)
  {
  }

  // ---------------------------------------------------------------- native envelopes

  datatype Native<N(==)> = Native(
    header: Header<N>, nativeEventType: string, sourceFormat: string, provider: Option<string>,
    codingAgent: Option<string>, aiProvider: Option<string>, model: Option<string>, runtimeSessionId: Option<string>,
    emittedAt: Option<string>, payload: Json.Json)

  function NativeProblem<N(==)>(e: Native<N>): Option<Problem> {
    var problem := ProtocolProblem(e.header.sequenceProtocolVersion, e.header.claimAttemptId);
    if problem.Some? then problem
    else MetadataProblem(Some(e.nativeEventType), Some(e.sourceFormat), e.provider, e.codingAgent, e.aiProvider,
                         e.model, e.runtimeSessionId, e.emittedAt)
  }

  function NativeBody<N(==)>(nums: Numbers<N>, e: Native<N>): seq<string> {
    var f1 := Put(WriteHeader(nums, e.header), NativeEventType, e.nativeEventType);
    var f2 := Put(f1, SourceFormat, e.sourceFormat);
    var f3 := Put(f2, Payload, Json.Text(e.payload, false));
    Put(f3, Format, "native")
  }

  function NativeFields<N(==)>(nums: Numbers<N>, e: Native<N>): seq<string> {
    var f4 := NativeBody(nums, e);
    var f5 := PutSome(f4, Provider, e.provider);
    var f6 := PutSome(f5, CodingAgent, e.codingAgent);
    var f7 := PutSome(f6, AiProvider, e.aiProvider);
    var f8 := PutSome(f7, Model, e.model);
    var f9 := PutSome(f8, RuntimeSessionId, e.runtimeSessionId);
    PutSome(f9, EmittedAt, e.emittedAt)
  }

  function BodyField<N(==)>(nums: Numbers<N>, e: Native<N>, k: Key): Option<string> {
    match k
    case NativeEventType => Some(e.nativeEventType)
    case SourceFormat => Some(e.sourceFormat)
    case Payload => Some(Json.Text(e.payload, false))
    case Format => Some("native")
    case _ => HeaderField(nums, e.header, k)
  }

  function NativeField<N(==)>(nums: Numbers<N>, e: Native<N>, k: Key): Option<string> {
    match k
    case Provider => Truthy(e.provider)
    case CodingAgent => Truthy(e.codingAgent)
    case AiProvider => Truthy(e.aiProvider)
    case Model => Truthy(e.model)
    case RuntimeSessionId => Truthy(e.runtimeSessionId)
    case EmittedAt => Truthy(e.emittedAt)
    case _ => BodyField(nums, e, k)
  }

  lemma BodyHolds<N>(nums: Numbers<N>, e: Native<N>)
    ensures Even(NativeBody(nums, e))
    ensures forall k :: Get(NativeBody(nums, e), k) == BodyField(nums, e, k)
  {
    hide Get, Put, WriteHeader, Json.Text;
    var f0 := WriteHeader(nums, e.header);
    var f1 := Put(f0, NativeEventType, e.nativeEventType);
    var f2 := Put(f1, SourceFormat, e.sourceFormat);
    var f3 := Put(f2, Payload, Json.Text(e.payload, false));
    HeaderHolds(nums, e.header);
    GetPut(f0, NativeEventType, e.nativeEventType);
    GetPut(f1, SourceFormat, e.sourceFormat);
    GetPut(f2, Payload, Json.Text(e.payload, false));
    GetPut(f3, Format, "native");
  }

  lemma OriginHolds<N>(nums: Numbers<N>, e: Native<N>)
    ensures var f7 := PutSome(PutSome(PutSome(NativeBody(nums, e), Provider, e.provider), CodingAgent, e.codingAgent),
                              AiProvider, e.aiProvider);
            && Even(f7)
            && forall k :: Get(f7, k) ==
                           match k
                           case Provider => Truthy(e.provider)
                           case CodingAgent => Truthy(e.codingAgent)
                           case AiProvider => Truthy(e.aiProvider)
                           case _ => BodyField(nums, e, k)
  {
    hide Get, PutSome, NativeBody, Json.Text;
    var f4 := NativeBody(nums, e);
    var f5 := PutSome(f4, Provider, e.provider);
    var f6 := PutSome(f5, CodingAgent, e.codingAgent);
    BodyHolds(nums, e);
    GetPutSome(f4, Provider, e.provider);
    GetPutSome(f5, CodingAgent, e.codingAgent);
    GetPutSome(f6, AiProvider, e.aiProvider);
  }

  lemma NativeHolds<N>(nums: Numbers<N>, e: Native<N>)
    ensures Even(NativeFields(nums, e))
    ensures forall k :: Get(NativeFields(nums, e), k) == NativeField(nums, e, k)
  {
    hide Get, PutSome, NativeBody, Json.Text;
    var f6 := PutSome(PutSome(NativeBody(nums, e), Provider, e.provider), CodingAgent, e.codingAgent);
    var f7 := PutSome(f6, AiProvider, e.aiProvider);
    var f8 := PutSome(f7, Model, e.model);
    var f9 := PutSome(f8, RuntimeSessionId, e.runtimeSessionId);
    OriginHolds(nums, e);
    GetPutSome(f7, Model, e.model);
    GetPutSome(f8, RuntimeSessionId, e.runtimeSessionId);
    GetPutSome(f9, EmittedAt, e.emittedAt);
  }

  function SerializeNative<N(==)>(nums: Numbers<N>, e: Native<N>): Result<seq<string>, Problem> {
    var problem := NativeProblem(e);
    if problem.Some? then Err(problem.value) else Ok(NativeFields(nums, e))
  }

  /** A parsed payload that is not an object or array is put into one. */
  function Wrapped(payload: Json.Json): Json.Json {
    if payload.Object? || payload.Array? then payload else Json.Object([Json.Field("value", payload)])
  }

  function InfrastructureOf(raw: Option<string>): Option<string> {
    if raw.Some? && IsInfrastructure(raw.value) then raw else None
  }

  /** Older producers put the AI provider into the provider field. */
  function AiProviderOf(raw: Option<string>, aiProvider: Option<string>): Option<string> {
    if aiProvider.Some? then aiProvider else if InfrastructureOf(raw).None? then raw else None
  }

  function DeserializeNative<N(==)>(nums: Numbers<N>, fields: seq<string>): Decoded<Native<N>> {
    var payload := Get(fields, Payload);
    var nativeEventType, sourceFormat := Get(fields, NativeEventType), Get(fields, SourceFormat);
    if Get(fields, Format) != Some("native") || payload.None? || nativeEventType.None? || sourceFormat.None? then
      NotThisFormat
    else
      var problem := ProtocolProblem(Get(fields, SequenceProtocolVersion), Get(fields, ClaimAttemptId));
      var parsed := Json.Parse(payload.value);
      if problem.Some? then Thrown(problem.value)
      else if parsed.Fail? then NotThisFormat
      else
        var e := Native(
          ReadHeader(nums, fields, nums.zero), nativeEventType.value, sourceFormat.value,
          InfrastructureOf(Get(fields, Provider)), Get(fields, CodingAgent),
          AiProviderOf(Get(fields, Provider), Get(fields, AiProvider)), Get(fields, Model),
          Get(fields, RuntimeSessionId), Get(fields, EmittedAt), Wrapped(parsed.value));
        var bad := MetadataProblem(nativeEventType, sourceFormat, e.provider, e.codingAgent, e.aiProvider, e.model,
                                   e.runtimeSessionId, e.emittedAt);
        if bad.Some? then Thrown(bad.value) else Envelope(e)
  }

  lemma NativeHeader<N>(nums: Numbers<N>, e: Native<N>)
    requires SerializeNative(nums, e).Ok? && NumbersReadBack(nums, e.header)
    ensures var fields := NativeFields(nums, e);
            && ReadHeader(nums, fields, nums.zero) == e.header
            && Get(fields, SequenceProtocolVersion) == e.header.sequenceProtocolVersion
            && Get(fields, ClaimAttemptId) == e.header.claimAttemptId
  {
    hide Get, NativeFields, ReadHeader, NumbersReadBack, MetadataProblem;
    NativeHolds(nums, e);
    HeaderReadsBack(nums, e.header, NativeFields(nums, e), nums.zero);
  }

  lemma NativeOptions<N>(nums: Numbers<N>, e: Native<N>)
    ensures var fields := NativeFields(nums, e);
            && Get(fields, Provider) == Truthy(e.provider)
            && Get(fields, CodingAgent) == Truthy(e.codingAgent)
            && Get(fields, AiProvider) == Truthy(e.aiProvider)
            && Get(fields, Model) == Truthy(e.model)
            && Get(fields, RuntimeSessionId) == Truthy(e.runtimeSessionId)
            && Get(fields, EmittedAt) == Truthy(e.emittedAt)
            && Get(fields, NativeEventType) == Some(e.nativeEventType)
            && Get(fields, SourceFormat) == Some(e.sourceFormat)
            && Get(fields, Payload) == Some(Json.Text(e.payload, false))
            && Get(fields, Format) == Some("native")
  {
    hide Get, NativeFields, NativeField, Truthy, Json.Text;
    NativeHolds(nums, e);
    NativeValues(nums, e);
    BodyValues(nums, e);
  }

  lemma NativeValues<N>(nums: Numbers<N>, e: Native<N>)
    ensures NativeField(nums, e, Provider) == Truthy(e.provider)
    ensures NativeField(nums, e, CodingAgent) == Truthy(e.codingAgent)
    ensures NativeField(nums, e, AiProvider) == Truthy(e.aiProvider)
    ensures NativeField(nums, e, Model) == Truthy(e.model)
    ensures NativeField(nums, e, RuntimeSessionId) == Truthy(e.runtimeSessionId)
    ensures NativeField(nums, e, EmittedAt) == Truthy(e.emittedAt)
  {
    hide Truthy, BodyField;
  }

  lemma BodyValues<N>(nums: Numbers<N>, e: Native<N>)
    ensures NativeField(nums, e, NativeEventType) == Some(e.nativeEventType)
    ensures NativeField(nums, e, SourceFormat) == Some(e.sourceFormat)
    ensures NativeField(nums, e, Payload) == Some(Json.Text(e.payload, false))
    ensures NativeField(nums, e, Format) == Some("native")
  {
    hide Truthy, Json.Text, HeaderField;
  }

  /** Valid metadata has no empty string that the writer would leave out. */
  lemma ValidMetadataIsTruthy<N>(e: Native<N>)
    requires NativeProblem(e).None?
    ensures Truthy(e.provider) == e.provider == InfrastructureOf(e.provider)
    ensures Truthy(e.codingAgent) == e.codingAgent && Truthy(e.aiProvider) == e.aiProvider
    ensures Truthy(e.model) == e.model && Truthy(e.runtimeSessionId) == e.runtimeSessionId
    ensures Truthy(e.emittedAt) == e.emittedAt
    ensures MetadataProblem(Some(e.nativeEventType), Some(e.sourceFormat), e.provider, e.codingAgent, e.aiProvider,
                            e.model, e.runtimeSessionId, e.emittedAt).None?
  {
  }

  /** A native envelope that serialises comes back as it was, its payload wrapped if it is no object; so
      it comes back unchanged exactly if its payload is an object or array. */
  lemma NativeRoundTrip<N>(nums: Numbers<N>, e: Native<N>)
    requires SerializeNative(nums, e).Ok? && Json.ValidNumbers(e.payload) && NumbersReadBack(nums, e.header)
    ensures DeserializeNative(nums, SerializeNative(nums, e).value) == Envelope(e.(payload := Wrapped(e.payload)))
    ensures DeserializeNative(nums, SerializeNative(nums, e).value) == Envelope(e) <==>
            e.payload.Object? || e.payload.Array?
  {
    hide Get, NativeFields, Json.Parse, Json.Text, Json.ValidNumbers, ReadHeader, NumbersReadBack, MetadataProblem,
         Truthy;
    hide IsInfrastructure;
    NativeOptions(nums, e);
    NativeHeader(nums, e);
    ValidMetadataIsTruthy(e);
    Json.ParseWhole(e.payload, false);
  }

  /** What decodes can be encoded again and decodes to itself. */
  lemma DecodedNativeIsStable<N>(nums: Numbers<N>, fields: seq<string>)
    requires DeserializeNative(nums, fields).Envelope?
    requires NumbersReadBack(nums, DeserializeNative(nums, fields).value.header)
    ensures var e := DeserializeNative(nums, fields).value;
            && SerializeNative(nums, e).Ok?
            && DeserializeNative(nums, SerializeNative(nums, e).value) == Envelope(e)
  {
    hide Get, NativeFields, Json.ParseValue, Json.Text, Json.SkipBlanks, MetadataProblem, IsInfrastructure;
    var e := DeserializeNative(nums, fields).value;
    assert Blank("");
    Json.ParsedIsValid(Get(fields, Payload).value);
    WrappedIsValid(Json.Parse(Get(fields, Payload).value).value);
    NativeRoundTrip(nums, e);
  }

  lemma WrappedIsValid(payload: Json.Json)
    requires Json.ValidNumbers(payload)
    ensures Json.ValidNumbers(Wrapped(payload))
  {
    var fields := [Json.Field("value", payload)];
    assert fields[1..] == [];
    assert Json.ValidFields(fields);
  }

  /** A native envelope without a sequence field decodes to the number 0, unlike a canonical one. */
  lemma NativeAbsentSequenceIsZero<N>(nums: Numbers<N>, fields: seq<string>)
    requires DeserializeNative(nums, fields).Envelope? && Get(fields, SequenceNumber).None?
    ensures DeserializeNative(nums, fields).value.header.sequenceNumber == nums.zero
  {
    hide Get, Json.Parse, MetadataProblem, IsInfrastructure, ProtocolProblem, Wrapped;
  }

  /** A decoded provider is an infrastructure provider, and what an older producer wrote into that field
      instead is kept as the AI provider unless there already is one. */
  lemma ProviderLanes<N>(nums: Numbers<N>, fields: seq<string>)
    requires DeserializeNative(nums, fields).Envelope?
    ensures var e := DeserializeNative(nums, fields).value;
            var raw := Get(fields, Provider);
            && (e.provider.Some? ==> IsInfrastructure(e.provider.value) && e.provider == raw)
            && (raw.Some? && e.provider.None? && Get(fields, AiProvider).None? ==> e.aiProvider == raw)
            && (Get(fields, AiProvider).Some? ==> e.aiProvider == Get(fields, AiProvider))
  {
    hide Get, Json.Parse, MetadataProblem, ReadHeader, IsInfrastructure, ProtocolProblem, Wrapped;
  }

  // ---------------------------------------------------------------- telling the formats apart

  /** Whether some pair of the list is this one. */
  predicate HasPair(fields: seq<string>, name: string, value: string) {
    exists i :: 0 <= i < |fields| - 1 && i % 2 == 0 && fields[i] == name && fields[i + 1] == value
  }

  method IsFormat(fields: seq<string>, format: string) returns (r: bool)
    ensures r <==> HasPair(fields, Name(Format), format)
  {
    hide Name;
    var i := 0;
    while i < |fields|
      invariant 0 <= i <= |fields| + 1 && i % 2 == 0
      invariant forall j | 0 <= j < i && j < |fields| - 1 && j % 2 == 0 ::
                  !(fields[j] == Name(Format) && fields[j + 1] == format)
    {
      if i + 1 < |fields| && fields[i] == Name(Format) && fields[i + 1] == format {
        return true;
      }
      i := i + 2;
    }
    return false;
  }

  /** The formats written for a name; only a pair named _format adds one. */
  lemma PutKeepsFormat(fields: seq<string>, k: Key, v: string)
    requires Even(fields) && k != Format
    ensures Even(Put(fields, k, v))
    ensures forall x :: HasPair(Put(fields, k, v), Name(Format), x) <==> HasPair(fields, Name(Format), x)
  {
    hide Name;
    var all := Put(fields, k, v);
    if Name(k) == Name(Format) {
      NamesDiffer(k, Format);
    }
    forall x ensures HasPair(all, Name(Format), x) <==> HasPair(fields, Name(Format), x) {
      if i :| 0 <= i < |all| - 1 && i % 2 == 0 && all[i] == Name(Format) && all[i + 1] == x {
        assert i < |fields| ==> fields[i] == Name(Format) && fields[i + 1] == x;
      }
      if i :| 0 <= i < |fields| - 1 && i % 2 == 0 && fields[i] == Name(Format) && fields[i + 1] == x {
        assert all[i] == Name(Format) && all[i + 1] == x;
      }
    }
  }

  lemma PutSomeKeepsFormat(fields: seq<string>, k: Key, v: Option<string>)
    requires Even(fields) && k != Format
    ensures Even(PutSome(fields, k, v))
    ensures forall x :: HasPair(PutSome(fields, k, v), Name(Format), x) <==> HasPair(fields, Name(Format), x)
  {
    hide HasPair, Name;
    if v.Some? {
      PutKeepsFormat(fields, k, v.value);
    }
  }

  lemma PutFormat(fields: seq<string>, v: string)
    requires Even(fields) && forall x :: !HasPair(fields, Name(Format), x)
    ensures forall x :: HasPair(Put(fields, Format, v), Name(Format), x) <==> x == v
  {
    hide Name;
    var all := Put(fields, Format, v);
    assert all[|fields|] == Name(Format) && all[|fields| + 1] == v;
    forall x ensures HasPair(all, Name(Format), x) <==> x == v {
      if i :| 0 <= i < |all| - 1 && i % 2 == 0 && all[i] == Name(Format) && all[i + 1] == x {
        if i < |fields| {
          assert fields[i] == Name(Format) && fields[i + 1] == x;
          assert HasPair(fields, Name(Format), x);
        }
      }
    }
  }

  lemma HeaderHasNoFormat<N>(nums: Numbers<N>, h: Header<N>)
    ensures Even(WriteHeader(nums, h)) && forall x :: !HasPair(WriteHeader(nums, h), Name(Format), x)
  {
    hide Put, PutSome, HasPair, Name;
    var f0 := Put([], JobId, h.jobId);
    var f1 := Put(f0, SessionId, h.sessionId);
    var f2 := Put(f1, WorkspaceId, h.workspaceId);
    var f3 := Put(f2, ThreadId, h.threadId);
    var f4 := Put(f3, Timestamp, nums.toText(h.timestamp));
    var f5 := Put(f4, SequenceNumber, nums.toText(h.sequenceNumber));
    NoPairs();
    PutKeepsFormat([], JobId, h.jobId);
    PutKeepsFormat(f0, SessionId, h.sessionId);
    PutKeepsFormat(f1, WorkspaceId, h.workspaceId);
    PutKeepsFormat(f2, ThreadId, h.threadId);
    PutKeepsFormat(f3, Timestamp, nums.toText(h.timestamp));
    PutKeepsFormat(f4, SequenceNumber, nums.toText(h.sequenceNumber));
    PutKeepsFormat(f5, SequenceProtocolVersion, DURABLE);
    PutSomeKeepsFormat(
      if h.sequenceProtocolVersion == Some(DURABLE) then Put(f5, SequenceProtocolVersion, DURABLE) else f5,
      ClaimAttemptId, h.claimAttemptId);
  }

  lemma NoPairs()
    ensures forall name, x :: !HasPair([], name, x)
  {
  }

  /** The two formats never pass for each other: a written envelope has exactly its own format pair,
      whatever strings it holds. */
  lemma FormatsAreToldApart<N>(nums: Numbers<N>, c: Canonical<N>, n: Native<N>)
    ensures forall x :: HasPair(CanonicalFields(nums, c), Name(Format), x) <==> x == "canonical"
    ensures forall x :: HasPair(NativeFields(nums, n), Name(Format), x) <==> x == "native"
  {
    hide HasPair, Name, CanonicalFields, NativeFields;
    CanonicalFormat(nums, c);
    NativeFormat(nums, n);
  }

  lemma CanonicalFormat<N>(nums: Numbers<N>, e: Canonical<N>)
    ensures forall x :: HasPair(CanonicalFields(nums, e), Name(Format), x) <==> x == "canonical"
  {
    hide Put, PutSome, WriteHeader, HasPair, Name, Json.Text;
    var f0 := WriteHeader(nums, e.header);
    var f1 := PutSome(f0, ProtocolVersion, e.protocolVersion);
    var f2 := PutSome(f1, SchemaVersion, e.schemaVersion);
    var f3 := PutSome(f2, EventId, e.eventId);
    var f4 := PutSome(f3, TurnId, e.turnId);
    var f5 := PutSome(f4, CausationId, e.causationId);
    var f6 := PutSome(f5, CorrelationId, e.correlationId);
    var f7 := PutSome(f6, SourceRuntime, e.sourceRuntime);
    var f8 := PutSome(f7, OccurredAt, e.occurredAt);
    HeaderHasNoFormat(nums, e.header);
    PutSomeKeepsFormat(f0, ProtocolVersion, e.protocolVersion);
    PutSomeKeepsFormat(f1, SchemaVersion, e.schemaVersion);
    PutSomeKeepsFormat(f2, EventId, e.eventId);
    PutSomeKeepsFormat(f3, TurnId, e.turnId);
    PutSomeKeepsFormat(f4, CausationId, e.causationId);
    PutSomeKeepsFormat(f5, CorrelationId, e.correlationId);
    PutSomeKeepsFormat(f6, SourceRuntime, e.sourceRuntime);
    PutSomeKeepsFormat(f7, OccurredAt, e.occurredAt);
    PutKeepsFormat(f8, Event, Json.Text(e.event, false));
    PutFormat(Put(f8, Event, Json.Text(e.event, false)), "canonical");
  }

  lemma NativeFormat<N>(nums: Numbers<N>, e: Native<N>)
    ensures forall x :: HasPair(NativeFields(nums, e), Name(Format), x) <==> x == "native"
  {
    hide Put, PutSome, WriteHeader, HasPair, Name, Json.Text;
    var f0 := WriteHeader(nums, e.header);
    var f1 := Put(f0, NativeEventType, e.nativeEventType);
    var f2 := Put(f1, SourceFormat, e.sourceFormat);
    var f3 := Put(f2, Payload, Json.Text(e.payload, false));
    var f4 := Put(f3, Format, "native");
    var f5 := PutSome(f4, Provider, e.provider);
    var f6 := PutSome(f5, CodingAgent, e.codingAgent);
    var f7 := PutSome(f6, AiProvider, e.aiProvider);
    var f8 := PutSome(f7, Model, e.model);
    var f9 := PutSome(f8, RuntimeSessionId, e.runtimeSessionId);
    HeaderHasNoFormat(nums, e.header);
    PutKeepsFormat(f0, NativeEventType, e.nativeEventType);
    PutKeepsFormat(f1, SourceFormat, e.sourceFormat);
    PutKeepsFormat(f2, Payload, Json.Text(e.payload, false));
    PutFormat(f3, "native");
    BodyHolds(nums, e);
    PutSomeKeepsFormat(f4, Provider, e.provider);
    PutSomeKeepsFormat(f5, CodingAgent, e.codingAgent);
    PutSomeKeepsFormat(f6, AiProvider, e.aiProvider);
    PutSomeKeepsFormat(f7, Model, e.model);
    PutSomeKeepsFormat(f8, RuntimeSessionId, e.runtimeSessionId);
    PutSomeKeepsFormat(f9, EmittedAt, e.emittedAt);
  }

  // ---------------------------------------------------------------- the loops of the source

  method Push(fields: seq<string>, k: Key, v: string) returns (r: seq<string>)
    ensures r == Put(fields, k, v)
  {
    r := fields + [Name(k)];
    r := r + [v];
    assert r == fields + [Name(k), v];
  }

  method PushSome(fields: seq<string>, k: Key, v: Option<string>) returns (r: seq<string>)
    ensures r == PutSome(fields, k, v)
  {
    r := fields;
    if v.Some? && v.value != "" {
      r := Push(r, k, v.value);
    }
  }

  method PushHeader<N(==)>(nums: Numbers<N>, h: Header<N>) returns (fields: seq<string>)
    ensures fields == WriteHeader(nums, h)
  {
    hide Put, PutSome;
    fields := Push([], JobId, h.jobId);
    fields := Push(fields, SessionId, h.sessionId);
    fields := Push(fields, WorkspaceId, h.workspaceId);
    fields := Push(fields, ThreadId, h.threadId);
    fields := Push(fields, Timestamp, nums.toText(h.timestamp));
    fields := Push(fields, SequenceNumber, nums.toText(h.sequenceNumber));
    if h.sequenceProtocolVersion == Some(DURABLE) {
      fields := Push(fields, SequenceProtocolVersion, DURABLE);
    }
    fields := PushSome(fields, ClaimAttemptId, h.claimAttemptId);
  }

  method SerializeCanonicalEnvelope<N(==)>(nums: Numbers<N>, e: Canonical<N>) returns (r: Result<seq<string>, Problem>)
    ensures r == SerializeCanonical(nums, e)
  {
    hide Put, PutSome, WriteHeader, ProtocolProblem, Json.Text;
    var problem := ProtocolProblem(e.header.sequenceProtocolVersion, e.header.claimAttemptId);
    if problem.Some? {
      return Err(problem.value);
    }
    var fields := PushHeader(nums, e.header);
    fields := PushSome(fields, ProtocolVersion, e.protocolVersion);
    fields := PushSome(fields, SchemaVersion, e.schemaVersion);
    fields := PushSome(fields, EventId, e.eventId);
    fields := PushSome(fields, TurnId, e.turnId);
    fields := PushSome(fields, CausationId, e.causationId);
    fields := PushSome(fields, CorrelationId, e.correlationId);
    fields := PushSome(fields, SourceRuntime, e.sourceRuntime);
    fields := PushSome(fields, OccurredAt, e.occurredAt);
    fields := Push(fields, Event, Json.Text(e.event, false));
    fields := Push(fields, Format, "canonical");
    return Ok(fields);
  }

  method SerializeNativeEnvelope<N(==)>(nums: Numbers<N>, e: Native<N>) returns (r: Result<seq<string>, Problem>)
    ensures r == SerializeNative(nums, e)
  {
    hide Put, PutSome, WriteHeader, NativeProblem, Json.Text;
    var problem := NativeProblem(e);
    if problem.Some? {
      return Err(problem.value);
    }
    var fields := PushHeader(nums, e.header);
    fields := Push(fields, NativeEventType, e.nativeEventType);
    fields := Push(fields, SourceFormat, e.sourceFormat);
    fields := Push(fields, Payload, Json.Text(e.payload, false));
    fields := Push(fields, Format, "native");
    fields := PushSome(fields, Provider, e.provider);
    fields := PushSome(fields, CodingAgent, e.codingAgent);
    fields := PushSome(fields, AiProvider, e.aiProvider);
    fields := PushSome(fields, Model, e.model);
    fields := PushSome(fields, RuntimeSessionId, e.runtimeSessionId);
    fields := PushSome(fields, EmittedAt, e.emittedAt);
    return Ok(fields);
  }

  function At(m: map<string, string>, k: Key): Option<string> {
    if Name(k) in m then Some(m[Name(k)]) else None
  }

  method HeaderFrom<N(==)>(nums: Numbers<N>, ghost fields: seq<string>, m: map<string, string>, absent: N)
    returns (h: Header<N>)
    requires forall k :: At(m, k) == Get(fields, k)
    ensures h == ReadHeader(nums, fields, absent)
  {
    hide At, Get;
    var timestamp, sequence, version := At(m, Timestamp), At(m, SequenceNumber), At(m, SequenceProtocolVersion);
    h := Header(
      Else(At(m, JobId), ""), Else(At(m, SessionId), ""), Else(At(m, WorkspaceId), ""), Else(At(m, ThreadId), ""),
      if timestamp.Some? then nums.ofText(timestamp.value) else nums.zero,
      if sequence.Some? then nums.ofText(sequence.value) else absent,
      if version == Some(DURABLE) then Some(DURABLE) else None,
      Truthy(At(m, ClaimAttemptId)));
  }

  method DeserializeCanonicalEnvelope<N(==)>(nums: Numbers<N>, fields: seq<string>) returns (r: Decoded<Canonical<N>>)
    ensures r == DeserializeCanonical(nums, fields)
  {
    hide At, Get, ReadHeader, Json.Parse, ProtocolProblem, Truthy;
    var m := ReadFields(fields);
    SameLookup(fields, m);
    var event := At(m, Event);
    if At(m, Format) != Some("canonical") || event.None? {
      return NotThisFormat;
    }
    var problem := ProtocolProblem(At(m, SequenceProtocolVersion), At(m, ClaimAttemptId));
    if problem.Some? {
      return Thrown(problem.value);
    }
    var parsed := Json.Parse(event.value);
    if parsed.Fail? {
      return NotThisFormat;
    }
    var header := HeaderFrom(nums, fields, m, nums.notANumber);
    return Envelope(Canonical(
      header, Truthy(At(m, ProtocolVersion)), Truthy(At(m, SchemaVersion)), Truthy(At(m, EventId)),
      Truthy(At(m, TurnId)), Truthy(At(m, CausationId)), Truthy(At(m, CorrelationId)), Truthy(At(m, SourceRuntime)),
      Truthy(At(m, OccurredAt)), parsed.value));
  }

  method DeserializeNativeEnvelope<N(==)>(nums: Numbers<N>, fields: seq<string>) returns (r: Decoded<Native<N>>)
    ensures r == DeserializeNative(nums, fields)
  {
    hide At, Get, ReadHeader, Json.Parse, ProtocolProblem, MetadataProblem, IsInfrastructure;
    var m := ReadFields(fields);
    SameLookup(fields, m);
    var payload, nativeEventType, sourceFormat := At(m, Payload), At(m, NativeEventType), At(m, SourceFormat);
    if At(m, Format) != Some("native") || payload.None? || nativeEventType.None? || sourceFormat.None? {
      return NotThisFormat;
    }
    var problem := ProtocolProblem(At(m, SequenceProtocolVersion), At(m, ClaimAttemptId));
    if problem.Some? {
      return Thrown(problem.value);
    }
    var parsed := Json.Parse(payload.value);
    if parsed.Fail? {
      return NotThisFormat;
    }
    var raw := At(m, Provider);
    var provider := InfrastructureOf(raw);
    var aiProvider := AiProviderOf(raw, At(m, AiProvider));
    var bad := MetadataProblem(nativeEventType, sourceFormat, provider, At(m, CodingAgent), aiProvider, At(m, Model),
                               At(m, RuntimeSessionId), At(m, EmittedAt));
    if bad.Some? {
      return Thrown(bad.value);
    }
    var header := HeaderFrom(nums, fields, m, nums.zero);
    return Envelope(Native(
      header, nativeEventType.value, sourceFormat.value, provider, At(m, CodingAgent), aiProvider, At(m, Model),
      At(m, RuntimeSessionId), At(m, EmittedAt), Wrapped(parsed.value)));
  }

  lemma SameLookup(fields: seq<string>, m: map<string, string>)
    requires forall name :: Find(fields, name) == if name in m then Some(m[name]) else None
    ensures forall k :: At(m, k) == Get(fields, k)
  {
    hide Name, Find;
  }

  // ---------------------------------------------------------------- exactly what is accepted

  /** No sequence protocol at all, or the durable one with a claim that is not blank. */
  ghost predicate SoundProtocol(version: Option<string>, claim: Option<string>) {
    || (version.None? && claim.None?)
    || (version == Some("durable.v2") && claim.Some? &&
        exists i :: 0 <= i < |claim.value| && !IsSpace(claim.value[i]))
  }

  predicate InBounds(v: Option<string>, limit: nat) {
    v.None? || 1 <= |v.value| <= limit
  }

  predicate SoundProvider(provider: Option<string>) {
    provider.None? || provider.value in {"claude-code", "codex", "zipu", "grok"}
  }

  lemma ProtocolIsChecked(version: Option<string>, claim: Option<string>)
    ensures ProtocolProblem(version, claim).None? <==> SoundProtocol(version, claim)
  {
  }

  lemma MetadataIsChecked(nativeEventType: Option<string>, sourceFormat: Option<string>, provider: Option<string>,
                          codingAgent: Option<string>, aiProvider: Option<string>, model: Option<string>,
                          runtimeSessionId: Option<string>, emittedAt: Option<string>)
    ensures MetadataProblem(nativeEventType, sourceFormat, provider, codingAgent, aiProvider, model, runtimeSessionId,
                            emittedAt).None? <==>
            && SoundProvider(provider) && InBounds(nativeEventType, 120) && InBounds(sourceFormat, 50)
            && InBounds(codingAgent, 256) && InBounds(aiProvider, 256) && InBounds(model, 256)
            && InBounds(runtimeSessionId, 255) && InBounds(emittedAt, 64)
  {
    hide IsInfrastructure, SoundProvider;
    ProviderIsChecked(provider);
    BoundsAreChecked();
    hide OutOfBounds, InBounds;
  }

  lemma ProviderIsChecked(provider: Option<string>)
    ensures SoundProvider(provider) <==> provider.None? || IsInfrastructure(provider.value)
  {
  }

  lemma BoundsAreChecked()
    ensures forall k, v :: OutOfBounds(k, v) <==> !InBounds(v, Limit(k))
  {
  }

  /** A canonical envelope is written, and a field list read as one, exactly under these conditions; reading
      throws exactly for unsound protocol metadata, and tells other lists apart by returning nothing. */
  lemma CanonicalIsAcceptedExactly<N>(nums: Numbers<N>, e: Canonical<N>, fields: seq<string>)
    ensures SerializeCanonical(nums, e).Ok? <==>
            SoundProtocol(e.header.sequenceProtocolVersion, e.header.claimAttemptId)
    ensures var r, event := DeserializeCanonical(nums, fields), Get(fields, Event);
            var mine := Get(fields, Format) == Some("canonical") && event.Some?;
            var sound := SoundProtocol(Get(fields, SequenceProtocolVersion), Get(fields, ClaimAttemptId));
            && (r.Thrown? <==> mine && !sound)
            && (r.Envelope? <==> mine && sound && !Json.Parse(event.value).Fail?)
  {
    hide Get, Json.Parse, ProtocolProblem, SoundProtocol, CanonicalFields, ReadHeader;
    ProtocolIsChecked(e.header.sequenceProtocolVersion, e.header.claimAttemptId);
    ProtocolIsChecked(Get(fields, SequenceProtocolVersion), Get(fields, ClaimAttemptId));
  }

  lemma NativeIsWrittenExactly<N>(nums: Numbers<N>, e: Native<N>)
    ensures SerializeNative(nums, e).Ok? <==>
            && SoundProtocol(e.header.sequenceProtocolVersion, e.header.claimAttemptId)
            && SoundProvider(e.provider) && InBounds(Some(e.nativeEventType), 120) && InBounds(Some(e.sourceFormat), 50)
            && InBounds(e.codingAgent, 256) && InBounds(e.aiProvider, 256) && InBounds(e.model, 256)
            && InBounds(e.runtimeSessionId, 255) && InBounds(e.emittedAt, 64)
  {
    hide ProtocolProblem, SoundProtocol, NativeFields, MetadataProblem, InBounds, SoundProvider;
    ProtocolIsChecked(e.header.sequenceProtocolVersion, e.header.claimAttemptId);
    MetadataIsChecked(Some(e.nativeEventType), Some(e.sourceFormat), e.provider, e.codingAgent, e.aiProvider, e.model,
                      e.runtimeSessionId, e.emittedAt);
  }

  /** A field list is read as a native envelope exactly if it is one with its required fields, sound protocol
      metadata, a readable payload and metadata in bounds, where a foreign provider counts as an AI provider. */
  lemma NativeIsReadExactly<N>(nums: Numbers<N>, fields: seq<string>)
    ensures var provider, aiProvider := Get(fields, Provider), Get(fields, AiProvider);
            DeserializeNative(nums, fields).Envelope? <==>
            && Get(fields, Format) == Some("native") && Get(fields, Payload).Some?
            && Get(fields, NativeEventType).Some? && Get(fields, SourceFormat).Some?
            && SoundProtocol(Get(fields, SequenceProtocolVersion), Get(fields, ClaimAttemptId))
            && !Json.Parse(Get(fields, Payload).value).Fail?
            && InBounds(Get(fields, NativeEventType), 120) && InBounds(Get(fields, SourceFormat), 50)
            && InBounds(Get(fields, CodingAgent), 256) && InBounds(Get(fields, Model), 256)
            && InBounds(Get(fields, RuntimeSessionId), 255) && InBounds(Get(fields, EmittedAt), 64)
            && (if aiProvider.Some? then InBounds(aiProvider, 256)
                else SoundProvider(provider) || InBounds(provider, 256))
  {
    hide Get, Json.Parse, ProtocolProblem, SoundProtocol, ReadHeader, MetadataProblem, InBounds, Wrapped;
    var provider, aiProvider := Get(fields, Provider), Get(fields, AiProvider);
    ProtocolIsChecked(Get(fields, SequenceProtocolVersion), Get(fields, ClaimAttemptId));
    MetadataIsChecked(Get(fields, NativeEventType), Get(fields, SourceFormat), InfrastructureOf(provider),
                      Get(fields, CodingAgent), AiProviderOf(provider, aiProvider), Get(fields, Model),
                      Get(fields, RuntimeSessionId), Get(fields, EmittedAt));
    NothingIsInBounds();
  }

  lemma NothingIsInBounds()
    ensures forall limit: nat :: InBounds(None, limit)
  {
  }

  // ---------------------------------------------------------------- the names on the wire

  /** The list has this value, or none, under this name. */
  predicate Has(fields: seq<string>, name: string, v: Option<string>) {
    Find(fields, name) == v
  }

  /** The fields that both formats share. */
  ghost predicate SharedNames<N>(nums: Numbers<N>, h: Header<N>, fields: seq<string>) {
    var version := if h.sequenceProtocolVersion == Some(DURABLE) then Some(DURABLE) else None;
    && Has(fields, "jobId", Some(h.jobId)) && Has(fields, "sessionId", Some(h.sessionId))
    && Has(fields, "workspaceId", Some(h.workspaceId)) && Has(fields, "threadId", Some(h.threadId))
    && Has(fields, "timestamp", Some(nums.toText(h.timestamp)))
    && Has(fields, "sequenceNumber", Some(nums.toText(h.sequenceNumber)))
    && Has(fields, "sequenceProtocolVersion", version) && Has(fields, "claimAttemptId", Truthy(h.claimAttemptId))
  }

  ghost predicate CanonicalIds<N>(nums: Numbers<N>, e: Canonical<N>, fields: seq<string>) {
    && Has(fields, "eventId", Truthy(e.eventId)) && Has(fields, "turnId", Truthy(e.turnId))
    && Has(fields, "causationId", Truthy(e.causationId)) && Has(fields, "correlationId", Truthy(e.correlationId))
    && Has(fields, "occurredAt", Truthy(e.occurredAt))
  }

  ghost predicate CanonicalNames<N>(nums: Numbers<N>, e: Canonical<N>, fields: seq<string>) {
    && CanonicalIds(nums, e, fields)
    && Has(fields, "protocolVersion", Truthy(e.protocolVersion))
    && Has(fields, "schemaVersion", Truthy(e.schemaVersion)) && Has(fields, "sourceRuntime", Truthy(e.sourceRuntime))
    && Has(fields, "event", Some(Json.Text(e.event, false))) && Has(fields, "_format", Some("canonical"))
  }

  ghost predicate NativeOrigin<N>(nums: Numbers<N>, e: Native<N>, fields: seq<string>) {
    && Has(fields, "provider", Truthy(e.provider)) && Has(fields, "codingAgent", Truthy(e.codingAgent))
    && Has(fields, "aiProvider", Truthy(e.aiProvider)) && Has(fields, "model", Truthy(e.model))
    && Has(fields, "runtimeSessionId", Truthy(e.runtimeSessionId)) && Has(fields, "emittedAt", Truthy(e.emittedAt))
  }

  ghost predicate NativeNames<N>(nums: Numbers<N>, e: Native<N>, fields: seq<string>) {
    && NativeOrigin(nums, e, fields)
    && Has(fields, "nativeEventType", Some(e.nativeEventType)) && Has(fields, "sourceFormat", Some(e.sourceFormat))
    && Has(fields, "payload", Some(Json.Text(e.payload, false))) && Has(fields, "_format", Some("native"))
  }

  lemma HeaderWireNames<N>(nums: Numbers<N>, h: Header<N>, fields: seq<string>)
    requires Get(fields, JobId) == HeaderField(nums, h, JobId)
    requires Get(fields, SessionId) == HeaderField(nums, h, SessionId)
    requires Get(fields, WorkspaceId) == HeaderField(nums, h, WorkspaceId)
    requires Get(fields, ThreadId) == HeaderField(nums, h, ThreadId)
    requires Get(fields, Timestamp) == HeaderField(nums, h, Timestamp)
    requires Get(fields, SequenceNumber) == HeaderField(nums, h, SequenceNumber)
    requires Get(fields, SequenceProtocolVersion) == HeaderField(nums, h, SequenceProtocolVersion)
    requires Get(fields, ClaimAttemptId) == HeaderField(nums, h, ClaimAttemptId)
    ensures SharedNames(nums, h, fields)
  {
    hide Find, Truthy;
  }

  lemma CanonicalIdNames<N>(nums: Numbers<N>, e: Canonical<N>, fields: seq<string>)
    requires Get(fields, EventId) == CanonicalField(nums, e, EventId)
    requires Get(fields, TurnId) == CanonicalField(nums, e, TurnId)
    requires Get(fields, CausationId) == CanonicalField(nums, e, CausationId)
    requires Get(fields, CorrelationId) == CanonicalField(nums, e, CorrelationId)
    requires Get(fields, OccurredAt) == CanonicalField(nums, e, OccurredAt)
    ensures CanonicalIds(nums, e, fields)
  {
    hide Find, Truthy, Json.Text;
  }

  lemma OtherCanonicalNames<N>(nums: Numbers<N>, e: Canonical<N>, fields: seq<string>)
    requires CanonicalIds(nums, e, fields)
    requires Get(fields, ProtocolVersion) == CanonicalField(nums, e, ProtocolVersion)
    requires Get(fields, SchemaVersion) == CanonicalField(nums, e, SchemaVersion)
    requires Get(fields, SourceRuntime) == CanonicalField(nums, e, SourceRuntime)
    requires Get(fields, Event) == CanonicalField(nums, e, Event)
    requires Get(fields, Format) == CanonicalField(nums, e, Format)
    ensures CanonicalNames(nums, e, fields)
  {
    hide Find, Truthy, Json.Text, CanonicalIds;
  }

  lemma ProviderNames<N>(nums: Numbers<N>, e: Native<N>, fields: seq<string>)
    requires Get(fields, Provider) == NativeField(nums, e, Provider)
    requires Get(fields, CodingAgent) == NativeField(nums, e, CodingAgent)
    requires Get(fields, AiProvider) == NativeField(nums, e, AiProvider)
    ensures Has(fields, "provider", Truthy(e.provider)) && Has(fields, "codingAgent", Truthy(e.codingAgent))
    ensures Has(fields, "aiProvider", Truthy(e.aiProvider))
  {
    hide Find, Truthy, Json.Text;
  }

  lemma NativeOriginNames<N>(nums: Numbers<N>, e: Native<N>, fields: seq<string>)
    requires Get(fields, Provider) == NativeField(nums, e, Provider)
    requires Get(fields, CodingAgent) == NativeField(nums, e, CodingAgent)
    requires Get(fields, AiProvider) == NativeField(nums, e, AiProvider)
    requires Get(fields, Model) == NativeField(nums, e, Model)
    requires Get(fields, RuntimeSessionId) == NativeField(nums, e, RuntimeSessionId)
    requires Get(fields, EmittedAt) == NativeField(nums, e, EmittedAt)
    ensures NativeOrigin(nums, e, fields)
  {
    hide Find, Truthy, Json.Text;
    ProviderNames(nums, e, fields);
  }

  lemma OtherNativeNames<N>(nums: Numbers<N>, e: Native<N>, fields: seq<string>)
    requires NativeOrigin(nums, e, fields)
    requires Get(fields, NativeEventType) == NativeField(nums, e, NativeEventType)
    requires Get(fields, SourceFormat) == NativeField(nums, e, SourceFormat)
    requires Get(fields, Payload) == NativeField(nums, e, Payload)
    requires Get(fields, Format) == NativeField(nums, e, Format)
    ensures NativeNames(nums, e, fields)
  {
    hide Find, Truthy, Json.Text, NativeOrigin;
  }

  /** A canonical envelope is written under the names that other programs read. */
  lemma CanonicalWireNames<N>(nums: Numbers<N>, e: Canonical<N>)
    ensures SharedNames(nums, e.header, CanonicalFields(nums, e)) && CanonicalNames(nums, e, CanonicalFields(nums, e))
  {
    hide CanonicalFields, Get, SharedNames, CanonicalNames, CanonicalIds, Truthy, HeaderField;
    CanonicalHolds(nums, e);
    HeaderWireNames(nums, e.header, CanonicalFields(nums, e));
    CanonicalIdNames(nums, e, CanonicalFields(nums, e));
    OtherCanonicalNames(nums, e, CanonicalFields(nums, e));
  }

  /** And so is a native one. */
  lemma NativeWireNames<N>(nums: Numbers<N>, e: Native<N>)
    ensures SharedNames(nums, e.header, NativeFields(nums, e)) && NativeNames(nums, e, NativeFields(nums, e))
  {
    hide NativeFields, Get, SharedNames, NativeNames, NativeOrigin, Truthy, HeaderField;
    NativeHolds(nums, e);
    HeaderWireNames(nums, e.header, NativeFields(nums, e));
    NativeOriginNames(nums, e, NativeFields(nums, e));
    OtherNativeNames(nums, e, NativeFields(nums, e));
  }
}
