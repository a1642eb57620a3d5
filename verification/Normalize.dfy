/** OTLP log records and spans turned into observation.Execution: the attribute table, the
    operation-id extraction and the protocol-only status rule. */
module Normalize {
  import opened Text
  import opened Observation

  // ---------------------------------------------------------------- the telemetry read

  type Attrs = map<string, string>

  newtype uint64 = x: int | 0 <= x < 0x1_0000_0000_0000_0000

  datatype AnyValue = StringValue(s: string) | BoolValue(b: bool) | IntValue(i: int)
                    | DoubleValue(rendered: string) | OtherValue

  datatype KeyValue = NilAttribute | KeyValue(key: string, value: Option<AnyValue>)

  datatype StatusCode = CodeUnset | CodeOk | CodeError | CodeOther

  datatype SpanKind = KindClient | KindServer | KindInternal | KindProducer | KindConsumer | KindOther

  datatype LogRecord = LogRecord(
    traceId: seq<byte>, spanId: seq<byte>, timeUnixNano: uint64, attributes: seq<KeyValue>)

  datatype Span = Span(
    traceId: seq<byte>, spanId: seq<byte>, parentSpanId: seq<byte>, kind: SpanKind,
    startTimeUnixNano: uint64, endTimeUnixNano: uint64, status: Option<StatusCode>,
    attributes: seq<KeyValue>)

  const OBSERVER_TYPE := "agentgateway_otlp"

  /** The two OTLP signals; the records name them "logs" and "traces". */
  datatype SignalKind = Logs | Traces

  function NameOf(kind: SignalKind): string { if kind.Logs? then "logs" else "traces" }

  const SPAN_KIND_CLIENT := "client"

  // ---------------------------------------------------------------- attributes

  function Decimal(n: int): string
    decreases n < 0, if n < 0 then -n else n
  {
    if n < 0 then "-" + Decimal(-n)
    else if n < 10 then ['0' + n as char]
    else Decimal(n / 10) + ['0' + (n % 10) as char]
  }

  function AnyValueString(v: AnyValue): string {
    match v
    case StringValue(s) => s
    case BoolValue(b) => if b then "true" else "false"
    case IntValue(i) => Decimal(i)
    case DoubleValue(rendered) => rendered
    case OtherValue => ""
  }

  /** Later attributes overwrite earlier ones; nil attributes and nil values are skipped. */
  function AttributesOf(attributes: seq<KeyValue>): Attrs {
    if attributes == [] then map[]
    else
      var init, last := AttributesOf(attributes[..|attributes| - 1]), attributes[|attributes| - 1];
      if last.NilAttribute? || last.value.None? then init
      else init[last.key := AnyValueString(last.value.value)]
  }

  /** The attribute sets the key: neither it nor its value is nil. */
  predicate Sets(attribute: KeyValue, key: string) {
    attribute.KeyValue? && attribute.value.Some? && attribute.key == key
  }

  /** The last attribute that sets the key. */
  predicate SetsLast(attributes: seq<KeyValue>, i: int, key: string) {
    && 0 <= i < |attributes| && Sets(attributes[i], key)
    && forall j :: i < j < |attributes| ==> !Sets(attributes[j], key)
  }

  /** The map holds every key some attribute sets, with the value of the last one that does. */
  lemma {:induction false} LastAttributeWins(attributes: seq<KeyValue>, key: string)
    ensures key !in AttributesOf(attributes) ==> forall i :: 0 <= i < |attributes| ==> !Sets(attributes[i], key)
    ensures key in AttributesOf(attributes) ==>
      (exists i :: SetsLast(attributes, i, key) &&
                   AttributesOf(attributes)[key] == AnyValueString(attributes[i].value.value))
  {
    hide AnyValueString;
    if attributes != [] {
      var init, last := attributes[..|attributes| - 1], |attributes| - 1;
      LastAttributeWins(init, key);
      if Sets(attributes[last], key) {
        assert SetsLast(attributes, last, key);
      } else if key in AttributesOf(init) {
        var i :| SetsLast(init, i, key) && AttributesOf(init)[key] == AnyValueString(init[i].value.value);
        assert SetsLast(attributes, i, key) && attributes[i] == init[i];
      }
    }
  }

  method AttributeMap(attributes: seq<KeyValue>) returns (values: Attrs)
    ensures values == AttributesOf(attributes)
  {
    values := map[];
    for i := 0 to |attributes|
      invariant values == AttributesOf(attributes[..i])
    {
      assert attributes[..i + 1][..i] == attributes[..i];
      var attribute := attributes[i];
      if attribute.KeyValue? && attribute.value.Some? {
        values := values[attribute.key := AnyValueString(attribute.value.value)];
      }
    }
    assert attributes[..|attributes|] == attributes;
  }

  /** Go's attrs[key]: the empty string when the key is missing. */
  function Get(attrs: Attrs, key: string): string {
    if key in attrs then attrs[key] else ""
  }

  /** The attributes read through the alias table. */
  datatype Canonical = ToolName | MethodName | SessionID | ResponseCode | ProtocolVersion | ErrorType

  /** The canonical key followed by its aliases, in preference order. */
  function KeysOf(canonical: Canonical): seq<string> {
    match canonical
    case ToolName => ["gen_ai.tool.name", "mcp.tool.name", "mcp.resource.name"]
    case MethodName => ["mcp.method.name", "mcp.method"]
    case SessionID => ["mcp.session.id", "mcp.session_id"]
    case ResponseCode => ["rpc.response.status_code", "mcp.error.code"]
    case ProtocolVersion => ["mcp.protocol.version", "mcp.protocol_version"]
    case ErrorType => ["error.type"]
  }

  function FirstSet(attrs: Attrs, keys: seq<string>): string {
    if keys == [] then ""
    else if Get(attrs, keys[0]) != "" then Get(attrs, keys[0])
    else FirstSet(attrs, keys[1..])
  }

  function Attr(attrs: Attrs, canonical: Canonical): string { FirstSet(attrs, KeysOf(canonical)) }

  // ---------------------------------------------------------------- operation ids

  const OPERATION_ID_KEYS := ["evidra.operation.id", "evidra_op", "evidra_operation_id"]

  /** One more part: trimmed, and kept unless blank or already found. */
  function Add(found: seq<string>, part: string): seq<string> {
    var v := TrimSpace(part);
    if v == "" || v in found then found else found + [v]
  }

  function AddAll(found: seq<string>, parts: seq<string>): seq<string>
    decreases parts
  {
    if parts == [] then found else AddAll(Add(found, parts[0]), parts[1..])
  }

  function Collect(found: seq<string>, attrs: Attrs, keys: seq<string>): seq<string>
    decreases keys
  {
    if keys == [] then found
    else Collect(AddAll(found, Split(Get(attrs, keys[0]), ',')), attrs, keys[1..])
  }

  function OperationIDs(attrs: Attrs): seq<string> { Collect([], attrs, OPERATION_ID_KEYS) }

  /** All parts under the keys, trimmed, as the loops meet them. */
  function AllParts(attrs: Attrs, keys: seq<string>): seq<string>
    decreases keys
  {
    if keys == [] then [] else TrimAll(Split(Get(attrs, keys[0]), ',')) + AllParts(attrs, keys[1..])
  }

  function TrimAll(parts: seq<string>): seq<string> {
    seq(|parts|, i requires 0 <= i < |parts| => TrimSpace(parts[i]))
  }

  /** x appears in all before y does, if y does. */
  ghost predicate AppearsFirst(all: seq<string>, x: string, y: string) {
    exists i :: 0 <= i < |all| && all[i] == x && forall j :: 0 <= j <= i ==> all[j] != y
  }

  /** found holds the non-empty strings of all, each once, in order of first appearance. */
  ghost predicate FirstAppearances(found: seq<string>, all: seq<string>) {
    && (forall v :: v in found <==> v in all && v != "")
    && (forall i, j :: 0 <= i < j < |found| ==> AppearsFirst(all, found[i], found[j]))
  }

  lemma AddKeepsOrder(found: seq<string>, all: seq<string>, part: string)
    requires FirstAppearances(found, all)
    ensures FirstAppearances(Add(found, part), all + [TrimSpace(part)])
  {
    hide TrimSpace;
    var v, more, next := TrimSpace(part), all + [TrimSpace(part)], Add(found, part);
    assert forall i :: 0 <= i < |all| ==> more[i] == all[i];
    forall x, y | AppearsFirst(all, x, y) ensures AppearsFirst(more, x, y) {
      var i :| 0 <= i < |all| && all[i] == x && forall j :: 0 <= j <= i ==> all[j] != y;
      assert more[i] == x;
    }
    forall i | 0 <= i < |found| && v !in found && v != "" ensures AppearsFirst(more, found[i], v) {
      assert found[i] in found;
      var k :| 0 <= k < |all| && all[k] == found[i];
      assert more[k] == found[i] && forall j :: 0 <= j <= k ==> more[j] in all;
    }
    assert forall x :: x in more <==> x in all || x == v;
  }

  lemma {:induction false} AddAllKeepsOrder(found: seq<string>, all: seq<string>, parts: seq<string>)
    requires FirstAppearances(found, all)
    ensures FirstAppearances(AddAll(found, parts), all + TrimAll(parts))
    decreases parts
  {
    hide FirstAppearances, TrimSpace, Add;
    if parts == [] {
      assert all + TrimAll(parts) == all;
    } else {
      AddKeepsOrder(found, all, parts[0]);
      AddAllKeepsOrder(Add(found, parts[0]), all + [TrimSpace(parts[0])], parts[1..]);
      assert TrimAll(parts) == [TrimSpace(parts[0])] + TrimAll(parts[1..]);
      assert all + [TrimSpace(parts[0])] + TrimAll(parts[1..]) == all + TrimAll(parts);
    }
  }

  lemma {:induction false} CollectKeepsOrder(found: seq<string>, all: seq<string>, attrs: Attrs, keys: seq<string>)
    requires FirstAppearances(found, all)
    ensures FirstAppearances(Collect(found, attrs, keys), all + AllParts(attrs, keys))
    decreases keys
  {
    hide FirstAppearances, TrimAll, AddAll, Split, Get;
    if keys == [] {
      assert all + AllParts(attrs, keys) == all;
    } else {
      var parts := Split(Get(attrs, keys[0]), ',');
      AddAllKeepsOrder(found, all, parts);
      CollectKeepsOrder(AddAll(found, parts), all + TrimAll(parts), attrs, keys[1..]);
      assert all + TrimAll(parts) + AllParts(attrs, keys[1..]) == all + AllParts(attrs, keys);
    }
  }

  /** The ids of a signal are the non-blank parts under the keys, each once, in the order in which
      they first appear. */
  lemma OperationIDsInOrder(attrs: Attrs)
    ensures FirstAppearances(OperationIDs(attrs), AllParts(attrs, OPERATION_ID_KEYS))
  {
    hide Collect, AllParts;
    CollectKeepsOrder([], [], attrs, OPERATION_ID_KEYS);
    assert [] + AllParts(attrs, OPERATION_ID_KEYS) == AllParts(attrs, OPERATION_ID_KEYS);
  }

  /** operationID: nested loops over the keys and their parts, skipping what was already seen. */
  method OperationID(attrs: Attrs, keys: seq<string>) returns (found: seq<string>)
    ensures found == Collect([], attrs, keys)
  {
    hide Split, TrimSpace, Get;
    found := [];
    var seen: set<string> := {};
    for k := 0 to |keys|
      invariant Collect(found, attrs, keys[k..]) == Collect([], attrs, keys)
      invariant forall v :: v in seen <==> v in found
    {
      var parts := Split(Get(attrs, keys[k]), ',');
      ghost var goal := AddAll(found, parts);
      assert keys[k..][1..] == keys[k + 1..];
      for i := 0 to |parts|
        invariant AddAll(found, parts[i..]) == goal
        invariant forall v :: v in seen <==> v in found
      {
        assert parts[i..][1..] == parts[i + 1..];
        var v := TrimSpace(parts[i]);
        if v == "" || v in seen { continue; }
        seen := seen + {v};
        found := found + [v];
      }
    }
  }

  function Classify(attrs: Attrs): Classification { ClassifySpec(OperationIDs(attrs)) }

  // ---------------------------------------------------------------- status

  function ToLower(s: string): string {
    seq(|s|, i requires 0 <= i < |s| => if 'A' <= s[i] <= 'Z' then s[i] + 32 as char else s[i])
  }

  predicate ContainsAt(s: string, sub: string, i: int) {
    0 <= i <= |s| - |sub| && s[i..i + |sub|] == sub
  }

  predicate Contains(s: string, sub: string) {
    exists i | 0 <= i <= |s| :: ContainsAt(s, sub, i)
  }

  const CALLER_FAULT_CODES := {"-32700", "-32600", "-32601", "-32602", "-32002"}

  function TrimMinus(code: string): string {
    if code != "" && code[0] == '-' then code[1..] else code
  }

  datatype Outcome = Outcome(status: Status, errorType: string, errorCode: string)

  function StatusFrom(attrs: Attrs, spanCode: StatusCode, completed: bool): Outcome {
    StatusRule(Attr(attrs, ErrorType), Attr(attrs, ResponseCode), spanCode, completed)
  }

  function StatusRule(errType: string, code: string, spanCode: StatusCode, completed: bool): Outcome {
    if Contains(ToLower(errType), "cancel") then Outcome(StatusCancelled, errType, code)
    else if errType != "" && errType != "_OTHER" then Outcome(StatusError, errType, code)
    else if code != "" then
      if code in CALLER_FAULT_CODES then Outcome(StatusError, "caller_jsonrpc_" + TrimMinus(code), code)
      else Outcome(StatusError, FirstNonEmpty(errType, "jsonrpc_" + code), code)
    else if spanCode.CodeError? then Outcome(StatusError, FirstNonEmpty(errType, "span_error"), code)
    else if errType == "_OTHER" then Outcome(StatusError, errType, code)
    else if completed || spanCode.CodeOk? then Outcome(StatusSuccess, "", code)
    else Outcome(StatusUnknown, "", "")
  }

  predicate IsToolCall(attrs: Attrs) {
    && Attr(attrs, MethodName) == "tools/call"
    && (Get(attrs, "mcp.resource.type") == "" || Get(attrs, "mcp.resource.type") == "tool")
  }

  predicate LogCompleted(attrs: Attrs) {
    Get(attrs, "duration") != "" || Get(attrs, "duration_ms") != "" ||
    Get(attrs, "http.status") != "" || Get(attrs, "http.status_code") != ""
  }

  // ---------------------------------------------------------------- payload availability

  const RAW_PAYLOAD_KEYS := ["gen_ai.tool.call." + "arguments", "gen_ai.tool.call." + "result"]

  /** What payloadAvailability's loop records for one raw-payload key. */
  function Offered(attrs: Attrs, key: string): Availability {
    if Get(attrs, key) == "" then NotEmitted else RefusedRaw
  }

  /** payloadAvailability: one pass over the raw-payload keys. */
  method PayloadAvailability(attrs: Attrs) returns (args: Availability, result: Availability)
    ensures args == Offered(attrs, RAW_PAYLOAD_KEYS[0]) && result == Offered(attrs, RAW_PAYLOAD_KEYS[1])
  {
    args, result := NotEmitted, NotEmitted;
    for i := 0 to |RAW_PAYLOAD_KEYS|
      invariant args == if i > 0 then Offered(attrs, RAW_PAYLOAD_KEYS[0]) else NotEmitted
      invariant result == if i > 1 then Offered(attrs, RAW_PAYLOAD_KEYS[1]) else NotEmitted
    {
      var key := RAW_PAYLOAD_KEYS[i];
      if Get(attrs, key) == "" { continue; }
      PayloadKeyNames(i);
      if Contains(key, "arguments") { args := RefusedRaw; } else { result := RefusedRaw; }
    }
  }

  lemma PayloadKeyNames(i: nat)
    requires i < |RAW_PAYLOAD_KEYS|
    ensures Contains(RAW_PAYLOAD_KEYS[i], "arguments") <==> i == 0
  {
    if i == 0 {
      assert ContainsAt(RAW_PAYLOAD_KEYS[0], "arguments", 17);
    } else {
      var key := RAW_PAYLOAD_KEYS[1];
      forall j ensures !ContainsAt(key, "arguments", j) {
        if 0 <= j <= |key| - 9 { assert key[j..j + 9][4] != 'm'; }
      }
    }
  }

  // ---------------------------------------------------------------- ids and times

  function HexDigit(n: int): (c: char)
    requires 0 <= n < 16
    ensures '0' <= c <= '9' || 'a' <= c <= 'f'
  {
    if n < 10 then '0' + n as char else 'a' + (n - 10) as char
  }

  function HexID(id: seq<byte>): (s: string)
    ensures |s| == 2 * |id|
    ensures forall c :: c in s ==> '0' <= c <= '9' || 'a' <= c <= 'f'
  {
    if id == [] then ""
    else [HexDigit(id[0] as int / 16), HexDigit(id[0] as int % 16)] + HexID(id[1..])
  }

  /** time.Unix(0, int64(n)): the conversion wraps at 2^63. */
  function TimestampFromUnixNano(n: uint64): Instant {
    if n as int < 0x8000_0000_0000_0000 then n as int else n as int - 0x1_0000_0000_0000_0000
  }

  /** finished.Sub(started).Milliseconds(): saturating difference, truncated toward zero. */
  function ElapsedMS(started: Instant, finished: Instant): int {
    var d := finished - started;
    var sat := if d > 0x7FFF_FFFF_FFFF_FFFF then 0x7FFF_FFFF_FFFF_FFFF
               else if d < -0x8000_0000_0000_0000 then -0x8000_0000_0000_0000 else d;
    if sat >= 0 then sat / 1_000_000 else -(-sat / 1_000_000)
  }

  function TrimMs(s: string): string {
    TrimSpace(if |s| >= 2 && s[|s| - 2..] == "ms" then s[..|s| - 2] else s)
  }

  function DurationMS(env: Env, values: seq<string>): int {
    if values == [] then 0
    else
      var v := TrimMs(values[0]);
      if v != "" && env.parseDuration(v).Some? then env.parseDuration(v).value
      else DurationMS(env, values[1..])
  }

  /** What a value says, if it is not blank without its unit and parses. */
  function Milliseconds(env: Env, value: string): Option<int> {
    if TrimMs(value) == "" then None else env.parseDuration(TrimMs(value))
  }

  /** The first value that says a duration. */
  predicate SaysFirst(env: Env, values: seq<string>, i: int) {
    && 0 <= i < |values| && Milliseconds(env, values[i]).Some?
    && forall j :: 0 <= j < i ==> Milliseconds(env, values[j]).None?
  }

  /** The duration is that of the first value that says one, or zero if none does. */
  lemma {:induction false} DurationIsFirst(env: Env, values: seq<string>)
    ensures forall i :: SaysFirst(env, values, i) ==> DurationMS(env, values) == Milliseconds(env, values[i]).value
    ensures (forall i :: 0 <= i < |values| ==> Milliseconds(env, values[i]).None?) ==> DurationMS(env, values) == 0
    decreases values
  {
    if values != [] {
      var rest := values[1..];
      DurationIsFirst(env, rest);
      assert forall j :: 0 <= j < |rest| ==> rest[j] == values[j + 1];
      DurationStep(env, values);
      hide TrimMs, DurationMS, Milliseconds;
      forall i | SaysFirst(env, values, i) ensures DurationMS(env, values) == Milliseconds(env, values[i]).value {
        if i > 0 { assert SaysFirst(env, rest, i - 1); }
      }
    }
  }

  lemma DurationStep(env: Env, values: seq<string>)
    requires values != []
    ensures DurationMS(env, values) ==
      if Milliseconds(env, values[0]).Some? then Milliseconds(env, values[0]).value else DurationMS(env, values[1..])
  {
    hide TrimMs;
  }

  /** durationMS: the first value that parses. */
  method ReadDuration(env: Env, values: seq<string>) returns (ms: int)
    ensures ms == DurationMS(env, values)
  {
    for i := 0 to |values|
      invariant DurationMS(env, values[i..]) == DurationMS(env, values)
    {
      assert values[i..][1..] == values[i + 1..];
      var v := TrimMs(values[i]);
      if v == "" { continue; }
      var parsed := env.parseDuration(v);
      if parsed.Some? { return parsed.value; }
    }
    return 0;
  }

  function SpanKindName(kind: SpanKind): string {
    match kind
    case KindClient => SPAN_KIND_CLIENT
    case KindServer => "server"
    case KindInternal => "internal"
    case KindProducer => "producer"
    case KindConsumer => "consumer"
    case KindOther => ""
  }

  function SourceFrom(attrs: Attrs, transport: string): Source {
    Source(OBSERVER_TYPE, "", "", transport, Get(attrs, "service.name"),
           Attr(attrs, ProtocolVersion), Get(attrs, "network.transport"),
           Attr(attrs, SessionID))
  }

  // ---------------------------------------------------------------- the two normalizers

  function LogExecution(env: Env, record: LogRecord, attrs: Attrs): Execution {
    var outcome, c := StatusFrom(attrs, CodeUnset, LogCompleted(attrs)), Classify(attrs);
    Execution(
      FirstNonEmpty(HexID(record.traceId), Get(attrs, "trace.id")),
      FirstNonEmpty(HexID(record.spanId), Get(attrs, "span.id")),
      "", "", c.operationID, c.correlation, c.detail,
      Get(attrs, "mcp.target"), Attr(attrs, ToolName),
      TimestampFromUnixNano(record.timeUnixNano), 0,
      DurationMS(env, [Get(attrs, "duration"), Get(attrs, "duration_ms")]),
      outcome.status, outcome.errorType, outcome.errorCode,
      "", Offered(attrs, RAW_PAYLOAD_KEYS[0]), "", Offered(attrs, RAW_PAYLOAD_KEYS[1]),
      false, false, false,
      SourceFrom(attrs, "otlp_logs"), ["logs"], [])
  }

  function FromLogRecord(env: Env, record: LogRecord): Option<Execution> {
    var attrs := AttributesOf(record.attributes);
    if !IsToolCall(attrs) || Attr(attrs, ToolName) == "" then None
    else Some(LogExecution(env, record, attrs))
  }

  function SpanExecution(span: Span, attrs: Attrs): Execution {
    var spanCode := if span.status.Some? then span.status.value else CodeUnset;
    var outcome, c := StatusFrom(attrs, spanCode, span.endTimeUnixNano != 0), Classify(attrs);
    var started := TimestampFromUnixNano(span.startTimeUnixNano);
    var finished := TimestampFromUnixNano(span.endTimeUnixNano);
    Execution(
      FirstNonEmpty(HexID(span.traceId), Get(attrs, "trace.id")),
      FirstNonEmpty(HexID(span.spanId), Get(attrs, "span.id")),
      HexID(span.parentSpanId), SpanKindName(span.kind),
      c.operationID, c.correlation, c.detail,
      Get(attrs, "mcp.target"), Attr(attrs, ToolName),
      started, finished,
      if started != 0 && finished != 0 then ElapsedMS(started, finished) else 0,
      outcome.status, outcome.errorType, outcome.errorCode,
      "", Offered(attrs, RAW_PAYLOAD_KEYS[0]), "", Offered(attrs, RAW_PAYLOAD_KEYS[1]),
      false, false, false,
      SourceFrom(attrs, "otlp_traces"), ["traces"], [])
  }

  function FromSpan(span: Span): Option<Execution> {
    var attrs := AttributesOf(span.attributes);
    if !IsToolCall(attrs) || Attr(attrs, ToolName) == "" then None
    else Some(SpanExecution(span, attrs))
  }

  // ---------------------------------------------------------------- either signal

  datatype RawSignal = RawLog(record: LogRecord) | RawSpan(span: Span)

  function RawAttributes(raw: RawSignal): Attrs {
    AttributesOf(if raw.RawLog? then raw.record.attributes else raw.span.attributes)
  }

  function KindOf(raw: RawSignal): SignalKind { if raw.RawLog? then Logs else Traces }

  function NormalizeSignal(env: Env, raw: RawSignal): Option<Execution> {
    if raw.RawLog? then FromLogRecord(env, raw.record) else FromSpan(raw.span)
  }

  /** Reference: the ids a set of attributes offers, with no order, duplication or key left. */
  ghost function Tokens(attrs: Attrs): set<string> { TokensUnder(attrs, OPERATION_ID_KEYS) }

  ghost function TokensUnder(attrs: Attrs, keys: seq<string>): set<string> {
    set k, part | k in keys && part in Split(Get(attrs, k), ',') && !Blank(part) :: TrimSpace(part)
  }
}
