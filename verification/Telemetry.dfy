/** What each field of one signal's record takes from the telemetry, field by field and in the
    telemetry's own terms. */
module Telemetry {
  import opened Text
  import opened Observation
  import opened Normalize

  // ---------------------------------------------------------------- texts of attribute values

  predicate AllDigits(s: string) { s != "" && forall i :: 0 <= i < |s| ==> '0' <= s[i] <= '9' }

  /** The number a string of digits says. */
  function ReadDigits(s: string): nat
    requires forall i :: 0 <= i < |s| ==> '0' <= s[i] <= '9'
  {
    if s == "" then 0 else 10 * ReadDigits(s[..|s| - 1]) + (s[|s| - 1] - '0') as nat
  }

  /** An integer as text: digits without a leading zero that say it, after a minus if negative. */
  ghost predicate SaysInteger(s: string, n: int) {
    if n < 0 then s != "" && s[0] == '-' && AllDigits(s[1..]) && s[1] != '0' && ReadDigits(s[1..]) == -n
    else AllDigits(s) && (|s| > 1 ==> s[0] != '0') && ReadDigits(s) == n
  }

  lemma {:induction false} DigitsSayNumber(n: nat)
    ensures SaysInteger(Decimal(n), n) && (n > 0 ==> Decimal(n)[0] != '0')
  {
    if n < 10 {
      assert ReadDigits(['0' + n as char][..0]) == 0;
    } else {
      var init, s := Decimal(n / 10), Decimal(n);
      DigitsSayNumber(n / 10);
      assert s[..|s| - 1] == init && s[|s| - 1] == '0' + (n % 10) as char;
      assert s[0] == init[0];
    }
  }

  /** An integer attribute becomes exactly its decimal text, and a flag the word for its value. */
  lemma AttributeTextSaysValue(value: AnyValue)
    ensures value.IntValue? ==> SaysInteger(AnyValueString(value), value.i)
    ensures value.BoolValue? ==> AnyValueString(value) == if value.b then "true" else "false"
    ensures value.StringValue? ==> AnyValueString(value) == value.s
    ensures value.OtherValue? ==> AnyValueString(value) == ""
  {
    if value.IntValue? {
      var n := value.i;
      DigitsSayNumber(if n < 0 then -n else n);
      if n < 0 { assert Decimal(n)[1..] == Decimal(-n) && Decimal(n)[1] == Decimal(-n)[0]; }
    }
  }

  // ---------------------------------------------------------------- aliases

  /** v is the first of the attributes that is set, or nothing if none is. */
  ghost predicate Chosen(attrs: Attrs, keys: seq<string>, v: string) {
    if forall i :: 0 <= i < |keys| ==> Get(attrs, keys[i]) == "" then v == ""
    else
      exists i :: 0 <= i < |keys| && v == Get(attrs, keys[i]) != "" &&
        forall j :: 0 <= j < i ==> Get(attrs, keys[j]) == ""
  }

  lemma {:induction false} FirstSetIsChosen(attrs: Attrs, keys: seq<string>)
    ensures Chosen(attrs, keys, FirstSet(attrs, keys))
  {
    hide Get;
    if keys != [] && Get(attrs, keys[0]) == "" {
      var rest := keys[1..];
      FirstSetIsChosen(attrs, rest);
      assert forall i :: 0 < i < |keys| ==> keys[i] == rest[i - 1];
      if i :| 0 <= i < |rest| && FirstSet(attrs, rest) == Get(attrs, rest[i]) != "" &&
              forall j :: 0 <= j < i ==> Get(attrs, rest[j]) == "" {
        assert keys[i + 1] == rest[i];
        assert forall j :: 0 <= j < i + 1 ==> Get(attrs, keys[j]) == "";
      }
    }
  }

  /** The semantic-convention name comes first and its aliases follow in order of preference. */
  lemma AliasesFallBack(attrs: Attrs)
    ensures Chosen(attrs, ["gen_ai.tool.name", "mcp.tool.name", "mcp.resource.name"], Attr(attrs, ToolName))
    ensures Chosen(attrs, ["mcp.method.name", "mcp.method"], Attr(attrs, MethodName))
    ensures Chosen(attrs, ["mcp.session.id", "mcp.session_id"], Attr(attrs, SessionID))
    ensures Chosen(attrs, ["rpc.response.status_code", "mcp.error.code"], Attr(attrs, ResponseCode))
    ensures Chosen(attrs, ["mcp.protocol.version", "mcp.protocol_version"], Attr(attrs, ProtocolVersion))
    ensures Attr(attrs, ErrorType) == Get(attrs, "error.type")
  {
    hide FirstSet, Chosen, Get;
    forall canonical ensures Chosen(attrs, KeysOf(canonical), Attr(attrs, canonical)) {
      FirstSetIsChosen(attrs, KeysOf(canonical));
    }
    OneKey(attrs, "error.type");
  }

  lemma OneKey(attrs: Attrs, key: string)
    ensures FirstSet(attrs, [key]) == Get(attrs, key)
  {
    assert [key][1..] == [];
  }

  // ---------------------------------------------------------------- ids and instants

  const HEX_DIGITS := "0123456789abcdef"

  /** The byte's two hexadecimal digits, the high one first, stand at its place. */
  ghost predicate PairAt(s: string, i: nat, b: byte) {
    2 * i + 1 < |s| && s[2 * i] == HEX_DIGITS[b as int / 16] && s[2 * i + 1] == HEX_DIGITS[b as int % 16]
  }

  /** Two hexadecimal digits for each byte and nothing else. */
  ghost predicate Spells(s: string, id: seq<byte>) {
    |s| == 2 * |id| && forall i :: 0 <= i < |id| ==> PairAt(s, i, id[i])
  }

  lemma DigitIsListed(n: int)
    requires 0 <= n < 16
    ensures HexDigit(n) == HEX_DIGITS[n]
  {}

  lemma FirstPair(b: byte, rest: string)
    ensures PairAt([HexDigit(b as int / 16), HexDigit(b as int % 16)] + rest, 0, b)
  {
    DigitIsListed(b as int / 16);
    DigitIsListed(b as int % 16);
    hide HexDigit;
  }

  lemma LaterPair(x: char, y: char, rest: string, i: nat, b: byte)
    requires PairAt(rest, i, b)
    ensures PairAt([x, y] + rest, i + 1, b)
  {}

  lemma {:induction false} HexSpells(id: seq<byte>)
    ensures Spells(HexID(id), id)
  {
    hide HexDigit, PairAt;
    if id != [] {
      var rest, x, y := id[1..], HexDigit(id[0] as int / 16), HexDigit(id[0] as int % 16);
      HexSpells(rest);
      FirstPair(id[0], HexID(rest));
      assert HexID(id) == [x, y] + HexID(rest);
      forall i | 0 <= i < |id| ensures PairAt(HexID(id), i, id[i]) {
        if i > 0 {
          assert PairAt(HexID(rest), i - 1, rest[i - 1]);
          LaterPair(x, y, HexID(rest), i - 1, rest[i - 1]);
        }
      }
    }
  }

  /** The instant of an unsigned count of nanoseconds, taken as a signed one. */
  predicate InstantFits(nanos: uint64, t: Instant) {
    -0x8000_0000_0000_0000 <= t < 0x8000_0000_0000_0000 && (t - nanos as int) % 0x1_0000_0000_0000_0000 == 0
  }

  lemma InstantWraps(nanos: uint64)
    ensures InstantFits(nanos, TimestampFromUnixNano(nanos))
    ensures InstantFits(nanos, 0) <==> nanos == 0
  {}

  // ---------------------------------------------------------------- the fields

  /** The text fields of a record that are not decided by classification or status. */
  datatype Field =
    | TraceField | SpanField | ParentField | KindField | TargetField | ToolField
    | ServiceField | ProtocolField | NetworkField | SessionField

  function FieldOf(ex: Execution, field: Field): string {
    match field
    case TraceField => ex.traceID
    case SpanField => ex.spanID
    case ParentField => ex.parentSpanID
    case KindField => ex.spanKind
    case TargetField => ex.target
    case ToolField => ex.tool
    case ServiceField => ex.source.serviceName
    case ProtocolField => ex.source.protocolVersion
    case NetworkField => ex.source.networkTransport
    case SessionField => ex.source.sessionID
  }

  function RawTrace(raw: RawSignal): seq<byte> { if raw.RawLog? then raw.record.traceId else raw.span.traceId }

  function RawSpanID(raw: RawSignal): seq<byte> { if raw.RawLog? then raw.record.spanId else raw.span.spanId }

  /** An id is spelled from its bytes; only without bytes is it an attribute's, unless that is blank. */
  ghost predicate IDFits(id: seq<byte>, attribute: string, v: string) {
    if id != [] then Spells(v, id) else v == (if Blank(attribute) then "" else attribute)
  }

  /** The names of the five known span kinds. */
  predicate KindFits(raw: RawSignal, v: string) {
    v == if raw.RawLog? || raw.span.kind.KindOther? then ""
         else if raw.span.kind.KindClient? then "client" else if raw.span.kind.KindServer? then "server"
         else if raw.span.kind.KindInternal? then "internal" else if raw.span.kind.KindProducer? then "producer"
         else "consumer"
  }

  /** The telemetry gives the field this value. */
  ghost predicate Gives(raw: RawSignal, field: Field, v: string) {
    var attrs := RawAttributes(raw);
    match field
    case TraceField => IDFits(RawTrace(raw), Get(attrs, "trace.id"), v)
    case SpanField => IDFits(RawSpanID(raw), Get(attrs, "span.id"), v)
    case ParentField => Spells(v, if raw.RawLog? then [] else raw.span.parentSpanId)
    case KindField => KindFits(raw, v)
    case TargetField => v == Get(attrs, "mcp.target")
    case ToolField => Chosen(attrs, ["gen_ai.tool.name", "mcp.tool.name", "mcp.resource.name"], v)
    case ServiceField => v == Get(attrs, "service.name")
    case ProtocolField => Chosen(attrs, ["mcp.protocol.version", "mcp.protocol_version"], v)
    case NetworkField => v == Get(attrs, "network.transport")
    case SessionField => Chosen(attrs, ["mcp.session.id", "mcp.session_id"], v)
  }

  /** The counts of nanoseconds a signal starts and ends at; a log has no end. */
  function StartOf(raw: RawSignal): uint64 {
    if raw.RawLog? then raw.record.timeUnixNano else raw.span.startTimeUnixNano
  }

  function EndOf(raw: RawSignal): uint64 { if raw.RawLog? then 0 else raw.span.endTimeUnixNano }

  predicate TimesFit(raw: RawSignal, ex: Execution) {
    InstantFits(StartOf(raw), ex.startedAt) && InstantFits(EndOf(raw), ex.finishedAt)
  }

  ghost predicate FieldsFit(raw: RawSignal, ex: Execution) {
    (forall field :: Gives(raw, field, FieldOf(ex, field))) && TimesFit(raw, ex)
  }

  lemma IDIsSpelled(id: seq<byte>, attribute: string)
    ensures IDFits(id, attribute, FirstNonEmpty(HexID(id), attribute))
  {
    hide Spells, TrimSpace;
    HexSpells(id);
    if id != [] { assert HexID(id)[0] in HexID(id) && !IsSpace(HexID(id)[0]); }
  }

  /** Every field of a normalized signal is what its own telemetry gives it. */
  lemma FieldsFitTelemetry(env: Env, raw: RawSignal, ex: Execution)
    requires NormalizeSignal(env, raw) == Some(ex)
    ensures FieldsFit(raw, ex)
  {
    hide Spells, IDFits, HexID, FirstNonEmpty, AttributesOf, IsToolCall, Attr, Get, Chosen, Classify, StatusFrom,
      Offered, DurationMS, LogCompleted, TimestampFromUnixNano, InstantFits;
    var attrs := RawAttributes(raw);
    AliasesFallBack(attrs);
    IDIsSpelled(RawTrace(raw), Get(attrs, "trace.id"));
    IDIsSpelled(RawSpanID(raw), Get(attrs, "span.id"));
    match raw
    case RawLog(record) =>
      InstantWraps(record.timeUnixNano);
      InstantWraps(0);
      NothingIsSpelled();
    case RawSpan(span) =>
      HexSpells(span.parentSpanId);
      InstantWraps(span.startTimeUnixNano);
      InstantWraps(span.endTimeUnixNano);
  }

  lemma NothingIsSpelled()
    ensures Spells("", [])
  {}

  // ---------------------------------------------------------------- durations

  /** The value without its unit, if it has one, and without the blanks around it. */
  ghost predicate IsBare(value: string, bare: string) {
    if exists number :: value == number + "ms" then exists number :: value == number + "ms" && Middle(number, bare)
    else Middle(value, bare)
  }

  lemma EndsInUnit(number: string)
    ensures |number + "ms"| >= 2 && (number + "ms")[|number + "ms"| - 2..] == "ms"
  {}

  lemma UnitIsDropped(value: string)
    ensures IsBare(value, TrimMs(value))
  {
    hide Middle, TrimSpace;
    if |value| >= 2 && value[|value| - 2..] == "ms" {
      var number := value[..|value| - 2];
      assert value == number + "ms";
      TrimIsMiddle(number);
    } else {
      forall number ensures value != number + "ms" { EndsInUnit(number); }
      TrimIsMiddle(value);
    }
  }

  /** A log's duration is what the first of its two duration attributes says that says one, and zero
      if neither does; "says" is reading the number left when unit and blanks are dropped. */
  lemma LogDuration(env: Env, record: LogRecord)
    requires FromLogRecord(env, record).Some?
    ensures var ms, attrs := FromLogRecord(env, record).value.durationMS, AttributesOf(record.attributes);
      var first, second := Get(attrs, "duration"), Get(attrs, "duration_ms");
      && IsBare(first, TrimMs(first)) && IsBare(second, TrimMs(second))
      && ms == if TrimMs(first) != "" && env.parseDuration(TrimMs(first)).Some? then
                 env.parseDuration(TrimMs(first)).value
               else if TrimMs(second) != "" && env.parseDuration(TrimMs(second)).Some? then
                 env.parseDuration(TrimMs(second)).value
               else 0
  {
    hide AttributesOf, IsToolCall, Attr, Get, Classify, StatusFrom, HexID, FirstNonEmpty, Offered, SourceFrom, TrimMs,
      IsBare, LogCompleted;
    var attrs := AttributesOf(record.attributes);
    var values := [Get(attrs, "duration"), Get(attrs, "duration_ms")];
    UnitIsDropped(values[0]);
    UnitIsDropped(values[1]);
    assert values[1..] == [values[1]] && values[1..][1..] == [];
    DurationStep(env, values);
    DurationStep(env, values[1..]);
  }
}
