/** What normalization guarantees about the execution it returns. */
module NormalizeLaws {
  import opened Text
  import opened Observation
  import opened Normalize
  import opened Telemetry

  // ---------------------------------------------------------------- operation ids

  lemma {:induction false} AddAllIsUnion(found: seq<string>, parts: seq<string>)
    ensures forall v :: v in AddAll(found, parts) <==>
      v in found || exists i :: 0 <= i < |parts| && !Blank(parts[i]) && v == TrimSpace(parts[i])
    decreases parts
  {
    if parts != [] {
      AddAllIsUnion(Add(found, parts[0]), parts[1..]);
      forall v
        ensures v in AddAll(found, parts) <==>
          v in found || exists i :: 0 <= i < |parts| && !Blank(parts[i]) && v == TrimSpace(parts[i])
      {
        if i :| 0 <= i < |parts[1..]| && !Blank(parts[1..][i]) && v == TrimSpace(parts[1..][i]) {
          assert parts[i + 1] == parts[1..][i];
        }
        if i :| 0 <= i < |parts| && !Blank(parts[i]) && v == TrimSpace(parts[i]) {
          assert i == 0 || parts[1..][i - 1] == parts[i];
        }
      }
    }
  }

  lemma {:induction false} CollectIsUnion(found: seq<string>, attrs: Attrs, keys: seq<string>)
    ensures forall v :: v in Collect(found, attrs, keys) <==> v in found || v in TokensUnder(attrs, keys)
    decreases keys
  {
    if keys != [] {
      var parts := Split(Get(attrs, keys[0]), ',');
      AddAllIsUnion(found, parts);
      CollectIsUnion(AddAll(found, parts), attrs, keys[1..]);
      forall v ensures v in TokensUnder(attrs, keys) <==>
          v in TokensUnder(attrs, keys[1..]) ||
          exists i :: 0 <= i < |parts| && !Blank(parts[i]) && v == TrimSpace(parts[i])
      {
        if i :| 0 <= i < |parts| && !Blank(parts[i]) && v == TrimSpace(parts[i]) {
          assert keys[0] in keys && parts[i] in parts;
        }
      }
    }
  }

  lemma {:induction false} PresentKeepsTrimmed(found: seq<string>)
    requires forall v :: v in found ==> v != "" && Trimmed(v)
    ensures PresentIn(found) == found
  {
    if found != [] {
      var init, last := found[..|found| - 1], found[|found| - 1];
      assert found == init + [last];
      assert forall v :: v in init ==> v in found;
      PresentKeepsTrimmed(init);
    }
  }

  /** operationID drops no id and invents none, so per-key duplicates and key order are
      irrelevant: a signal's correlation is the verdict on its set of comma-separated tokens. */
  lemma SignalVerdictIsTokenVerdict(attrs: Attrs)
    ensures forall v :: v in OperationIDs(attrs) <==> v in Tokens(attrs)
    ensures var c := Classify(attrs);
      && VerdictFrom(c.correlation, c.operationID) == VerdictOf(Tokens(attrs))
      && Coherent(c.correlation, c.operationID, c.detail)
  {
    var found := OperationIDs(attrs);
    CollectIsUnion([], attrs, OPERATION_ID_KEYS);
    forall v | v in found ensures v != "" && Trimmed(v) {
      assert v in Tokens(attrs);
    }
    PresentKeepsTrimmed(found);
    assert (set id | id in found) == Tokens(attrs);
    ClassifyMeetsContract(found);
  }

  // ---------------------------------------------------------------- what a classification says

  /** The record is ambiguous and says that no signal carried an id. */
  predicate Misleads(correlation: Correlation, detail: string) { correlation.Ambiguous? && detail == NO_ID_DETAIL }

  /** Without an id the record says so. Signals do, and merging keeps it so. */
  predicate PlainWithoutID(correlation: Correlation, detail: string) {
    correlation.Unattributed? ==> detail == NO_ID_DETAIL
  }

  /** No classification misleads. */
  lemma ClassificationExplainsItself(found: seq<string>)
    ensures PlainWithoutID(ClassifySpec(found).correlation, ClassifySpec(found).detail)
    ensures !Misleads(ClassifySpec(found).correlation, ClassifySpec(found).detail)
  {
    hide ValidOperationID, PresentIn;
    assert NO_ID_DETAIL[0] == 'n' && CONFLICT_DETAIL[0] == 'c' && MALFORMED_DETAIL[0] == 'o';
    var present := PresentIn(found);
    if present != [] {
      assert (CONFLICT_DETAIL + Join(present, " vs "))[0] == 'c' && (MALFORMED_DETAIL + present[0])[0] == 'o';
    }
  }

  lemma FoundOnce(found: seq<string>, all: seq<string>)
    requires FirstAppearances(found, all)
    ensures forall i, j :: 0 <= i < j < |found| ==> found[i] != found[j]
  {}

  /** A signal's explanation: of several ids all of them, in order of first appearance; of one that is
      not well formed that id; of none that there is none; and nothing of one that is. */
  lemma SignalNamesItsIDs(attrs: Attrs)
    ensures var ids, c := OperationIDs(attrs), Classify(attrs);
      c.detail ==
        if ids == [] then NO_ID_DETAIL
        else if |ids| > 1 then CONFLICT_DETAIL + Join(ids, " vs ")
        else if MatchesPattern(ids[0]) then ""
        else MALFORMED_DETAIL + ids[0]
  {
    hide OperationIDs, Tokens, TrimSpace, MatchesPattern, Join, AllParts;
    var ids := OperationIDs(attrs);
    SignalVerdictIsTokenVerdict(attrs);
    OperationIDsInOrder(attrs);
    FoundOnce(ids, AllParts(attrs, OPERATION_ID_KEYS));
    forall v | v in ids ensures v != "" && Trimmed(v) { IDsAreTrimmed(attrs, v); }
    PresentKeepsTrimmed(ids);
    hide PresentIn, FirstAppearances;
    if |ids| > 1 {
      assert ids[1] != ids[0];
    } else if ids != [] {
      assert ids[0] in ids && TrimSpace(ids[0]) == ids[0];
    }
  }

  lemma IDsAreTrimmed(attrs: Attrs, id: string)
    requires id in Tokens(attrs)
    ensures id != "" && Trimmed(id)
  {}

  // ---------------------------------------------------------------- status

  /** A failure names its error type, and anything else carries neither type nor code. */
  predicate ErrorsMarked(status: Status, errorType: string, errorCode: string) {
    && (Failed(status) <==> !Blank(errorType))
    && (!Failed(status) ==> errorType == "" && errorCode == "")
  }

  predicate Failed(status: Status) { status.StatusError? || status.StatusCancelled? }

  predicate BlankButSet(s: string) { s != "" && Blank(s) }

  lemma ContainsFirst(s: string, sub: string)
    requires Contains(s, sub) && sub != ""
    ensures exists i :: 0 <= i < |s| && s[i] == sub[0]
  {
    var i :| 0 <= i <= |s| && ContainsAt(s, sub, i);
    assert s[i..i + |sub|][0] == sub[0];
  }

  lemma CancelIsNotBlank(errType: string)
    requires Contains(ToLower(errType), "cancel")
    ensures !Blank(errType)
  {
    ContainsFirst(ToLower(errType), "cancel");
    var i :| 0 <= i < |errType| && ToLower(errType)[i] == 'c';
    assert !IsSpace(errType[i]);
  }

  lemma NothingIsBlank()
    ensures Blank("")
  {}

  /** statusFrom marks errors exactly unless the source sent an error type of blanks only. */
  lemma StatusMarksErrors(errType: string, code: string, spanCode: StatusCode, completed: bool)
    ensures var o := StatusRule(errType, code, spanCode, completed);
      && (ErrorsMarked(o.status, o.errorType, o.errorCode) <==> !BlankButSet(errType))
      && (!Failed(o.status) ==> o.errorType == "" && o.errorCode == "")
  {
    hide Contains, ToLower, Blank, TrimMinus;
    NothingIsBlank();
    NotBlank("_OTHER", "");
    assert "_OTHER" + "" == "_OTHER";
    if Contains(ToLower(errType), "cancel") {
      CancelIsNotBlank(errType);
    } else if errType != "" && errType != "_OTHER" {
    } else if code != "" {
      NotBlank("caller_jsonrpc_", TrimMinus(code));
      NotBlank("jsonrpc_", code);
    } else if spanCode.CodeError? {
      NotBlank("span_", "error");
      assert "span_" + "error" == "span_error";
    }
  }

  /** Which outcome, from the evidence alone: a cancellation is named, a failure is an error type
      or a code or an error span, and success needs a completion and none of these. */
  lemma StatusIsDecidedBy(errType: string, code: string, spanCode: StatusCode, completed: bool)
    ensures var s := StatusRule(errType, code, spanCode, completed).status;
      var cancelled := Contains(ToLower(errType), "cancel");
      && (s.StatusCancelled? <==> cancelled)
      && (s.StatusError? <==> !cancelled && (errType != "" || code != "" || spanCode.CodeError?))
      && (s.StatusSuccess? <==> errType == "" && code == "" && !spanCode.CodeError? && (completed || spanCode.CodeOk?))
  {
    if Contains(ToLower(errType), "cancel") { CancelIsNotBlank(errType); }
    hide Contains, ToLower, FirstNonEmpty, TrimMinus;
  }

  /** "cancel" stands at this place, each letter in either case. */
  predicate CancelAt(s: string, i: int) {
    && 0 <= i && i + 6 <= |s| && s[i] in "cC" && s[i + 1] in "aA" && s[i + 2] in "nN"
    && s[i + 3] in "cC" && s[i + 4] in "eE" && s[i + 5] in "lL"
  }

  lemma LetterInEitherCase(s: string, i: nat, c: char)
    requires i < |s| && 'a' <= c <= 'z'
    ensures ToLower(s)[i] == c <==> s[i] == c || s[i] == c - 32 as char
  {}

  lemma CancelHere(s: string, i: int)
    ensures ContainsAt(ToLower(s), "cancel", i) <==> CancelAt(s, i)
  {
    if 0 <= i && i + 6 <= |s| {
      assert forall c: char :: c in "cC" <==> c == 'c' || c == 'C';
      LetterInEitherCase(s, i, 'c');
      LetterInEitherCase(s, i + 1, 'a');
      LetterInEitherCase(s, i + 2, 'n');
      LetterInEitherCase(s, i + 3, 'c');
      LetterInEitherCase(s, i + 4, 'e');
      LetterInEitherCase(s, i + 5, 'l');
      var t := ToLower(s);
      hide ToLower;
      var w := t[i..i + 6];
      assert w == [t[i], t[i + 1], t[i + 2], t[i + 3], t[i + 4], t[i + 5]];
    }
  }

  /** An error type names a cancellation exactly when the word is in it, in any mixture of cases. */
  lemma CancelInAnyCase(errType: string)
    ensures Contains(ToLower(errType), "cancel") <==> exists i :: CancelAt(errType, i)
  {
    hide CancelAt, ContainsAt;
    forall i ensures ContainsAt(ToLower(errType), "cancel", i) <==> CancelAt(errType, i) { CancelHere(errType, i); }
    if i :| CancelAt(errType, i) { CancelIsInside(errType, i); }
  }

  lemma CancelIsInside(s: string, i: int)
    requires CancelAt(s, i)
    ensures 0 <= i <= |s| && |ToLower(s)| == |s|
  {}

  // ---------------------------------------------------------------- what a record may hold

  /** Only tool calls that name a tool normalize, and no record holds raw content: each payload is
      refused exactly when the source offered it, and was not emitted otherwise. */
  lemma OnlyToolCallsAndNoPayload(env: Env, raw: RawSignal)
    ensures var attrs := RawAttributes(raw);
      NormalizeSignal(env, raw).Some? <==>
        Attr(attrs, MethodName) == "tools/call" && Get(attrs, "mcp.resource.type") in ["", "tool"] &&
        Attr(attrs, ToolName) != ""
    ensures NormalizeSignal(env, raw).Some? ==>
      var ex, attrs := NormalizeSignal(env, raw).value, RawAttributes(raw);
      && ex.tool == Attr(attrs, ToolName) && ex.target == Get(attrs, "mcp.target")
      && ex.argumentsFingerprint == "" && ex.resultFingerprint == ""
      && ex.argumentsFingerprintStatus ==
         (if Get(attrs, "gen_ai.tool.call.arguments") != "" then RefusedRaw else NotEmitted)
      && ex.resultFingerprintStatus == (if Get(attrs, "gen_ai.tool.call.result") != "" then RefusedRaw else NotEmitted)
      && !ex.annotationsVerified && !ex.readOnlyAnnotationKnown
      && (ex.spanKind == SPAN_KIND_CLIENT <==> raw.RawSpan? && raw.span.kind.KindClient?)
  {
    hide AttributesOf, Attr, Get, SourceFrom, Classify, StatusRule, HexID, FirstNonEmpty, DurationMS, LogCompleted;
    assert RAW_PAYLOAD_KEYS[0] == "gen_ai.tool.call.arguments" && RAW_PAYLOAD_KEYS[1] == "gen_ai.tool.call.result";
  }

  /** The difference of two instants, as far as a 64-bit count of nanoseconds reaches. */
  function Elapsed(started: Instant, finished: Instant): int {
    var d := finished - started;
    if d > 0x7FFF_FFFF_FFFF_FFFF then 0x7FFF_FFFF_FFFF_FFFF
    else if d < -0x8000_0000_0000_0000 then -0x8000_0000_0000_0000 else d
  }

  /** ms is the whole milliseconds of ns, rounded toward zero on either side. */
  predicate WholeMilliseconds(ms: int, ns: int) {
    if ns >= 0 then 0 <= ms * 1_000_000 <= ns < (ms + 1) * 1_000_000
    else (ms - 1) * 1_000_000 < ns <= ms * 1_000_000 <= 0
  }

  /** A span's times are unset exactly when the source left them unset, and its duration is zero
      unless both are set, and then the whole milliseconds between them, in either order. */
  lemma SpanTimes(span: Span)
    requires FromSpan(span).Some?
    ensures var ex := FromSpan(span).value;
      && (ex.startedAt == 0 <==> span.startTimeUnixNano == 0) && (ex.finishedAt == 0 <==> span.endTimeUnixNano == 0)
      && (if ex.startedAt == 0 || ex.finishedAt == 0 then ex.durationMS == 0
          else WholeMilliseconds(ex.durationMS, Elapsed(ex.startedAt, ex.finishedAt)))
  {
    hide AttributesOf, IsToolCall, Attr, Get, SourceFrom, Classify, StatusRule, HexID, FirstNonEmpty, Offered;
    var ex := FromSpan(span).value;
    ElapsedIsWhole(ex.startedAt, ex.finishedAt);
  }

  lemma ElapsedIsWhole(started: Instant, finished: Instant)
    ensures WholeMilliseconds(ElapsedMS(started, finished), Elapsed(started, finished))
  {}

  // ---------------------------------------------------------------- both normalizers

  /** The error type of the signal names a cancellation. */
  predicate NamesCancel(raw: RawSignal) { Contains(ToLower(Attr(RawAttributes(raw), ErrorType)), "cancel") }

  /** The signal carries an error type or a response code, or its span ended in an error. */
  predicate NamesFailure(raw: RawSignal) {
    || Attr(RawAttributes(raw), ErrorType) != ""
    || Attr(RawAttributes(raw), ResponseCode) != ""
    || (raw.RawSpan? && raw.span.status == Some(CodeError))
  }

  /** The signal shows that the call was completed: a span that ended or is marked as fine, an access
      log with a duration or an HTTP status. */
  predicate Completed(raw: RawSignal) {
    match raw
    case RawSpan(span) => span.endTimeUnixNano != 0 || span.status == Some(CodeOk)
    case RawLog(record) =>
      exists key :: key in ["duration", "duration_ms", "http.status", "http.status_code"] &&
        Get(AttributesOf(record.attributes), key) != ""
  }

  /** The status says what the signal shows, and nothing else. */
  ghost predicate StatusFits(raw: RawSignal, status: Status) {
    && (status.StatusCancelled? <==> NamesCancel(raw))
    && (status.StatusError? <==> !NamesCancel(raw) && NamesFailure(raw))
    && (status.StatusSuccess? <==> !NamesFailure(raw) && Completed(raw))
  }

  predicate Offers(raw: RawSignal, key: string) { Get(RawAttributes(raw), key) != "" }

  /** The raw arguments and the raw result are refused when offered, and not emitted otherwise. */
  ghost predicate PayloadFits(raw: RawSignal, ex: Execution) {
    && ex.argumentsFingerprintStatus == (if Offers(raw, "gen_ai.tool.call.arguments") then RefusedRaw else NotEmitted)
    && ex.resultFingerprintStatus == (if Offers(raw, "gen_ai.tool.call.result") then RefusedRaw else NotEmitted)
  }

  lemma CancelIsFailure(raw: RawSignal)
    requires NamesCancel(raw)
    ensures NamesFailure(raw)
  {
    CancelIsNotBlank(Attr(RawAttributes(raw), ErrorType));
    NothingIsBlank();
    hide Blank, Attr, Contains, ToLower;
  }

  /** The status of every normalized signal is decided by its own telemetry: a span's status and end,
      a log's four completion attributes, and the error type and code of either. */
  lemma StatusFitsTelemetry(env: Env, raw: RawSignal, ex: Execution)
    requires NormalizeSignal(env, raw) == Some(ex)
    ensures StatusFits(raw, ex.status)
  {
    if NamesCancel(raw) { CancelIsFailure(raw); }
    hide NamesCancel, LogCompleted, StatusFrom, FromLogRecord, FromSpan, AttributesOf, Attr;
    StatusIsRule(env, raw, ex);
    match raw
    case RawLog(record) =>
      EvidenceDecides(raw, CodeUnset, LogCompleted(AttributesOf(record.attributes)));
      LogIsCompleted(record);
    case RawSpan(span) =>
      var spanCode := if span.status.Some? then span.status.value else CodeUnset;
      EvidenceDecides(raw, spanCode, span.endTimeUnixNano != 0);
  }

  lemma StatusIsRule(env: Env, raw: RawSignal, ex: Execution)
    requires NormalizeSignal(env, raw) == Some(ex)
    ensures ex.status == match raw
      case RawLog(record) =>
        StatusFrom(RawAttributes(raw), CodeUnset, LogCompleted(AttributesOf(record.attributes))).status
      case RawSpan(span) =>
        StatusFrom(RawAttributes(raw), if span.status.Some? then span.status.value else CodeUnset,
                   span.endTimeUnixNano != 0).status
  {
    hide AttributesOf, IsToolCall, SourceFrom, Classify, StatusFrom, Attr, Get, HexID, FirstNonEmpty, DurationMS,
      Offered, LogCompleted;
  }

  lemma EvidenceDecides(raw: RawSignal, spanCode: StatusCode, completed: bool)
    ensures var s := StatusFrom(RawAttributes(raw), spanCode, completed).status;
      var named := Attr(RawAttributes(raw), ErrorType) != "" || Attr(RawAttributes(raw), ResponseCode) != "";
      && (s.StatusCancelled? <==> NamesCancel(raw))
      && (s.StatusError? <==> !NamesCancel(raw) && (named || spanCode.CodeError?))
      && (s.StatusSuccess? <==> !named && !spanCode.CodeError? && (completed || spanCode.CodeOk?))
  {
    var attrs := RawAttributes(raw);
    StatusIsDecidedBy(Attr(attrs, ErrorType), Attr(attrs, ResponseCode), spanCode, completed);
    hide Contains, ToLower, StatusRule, Attr, RawAttributes;
  }

  lemma LogIsCompleted(record: LogRecord)
    ensures LogCompleted(AttributesOf(record.attributes)) <==> Completed(RawLog(record))
  {
    hide AttributesOf, Get;
    var keys := ["duration", "duration_ms", "http.status", "http.status_code"];
    assert keys[0] in keys && keys[1] in keys && keys[2] in keys && keys[3] in keys;
  }

  lemma PayloadFitsTelemetry(env: Env, raw: RawSignal, ex: Execution)
    requires NormalizeSignal(env, raw) == Some(ex)
    ensures PayloadFits(raw, ex)
  {
    hide AttributesOf, IsToolCall, SourceFrom, Classify, StatusRule, Attr, Get, HexID, FirstNonEmpty, DurationMS,
      LogCompleted;
    OnlyToolCallsAndNoPayload(env, raw);
  }

  /** The JSON-RPC codes that are the caller's fault. */
  predicate CallerFault(code: string) { code in ["-32700", "-32600", "-32601", "-32602", "-32002"] }

  /** What a normalized signal says of its error: always the source's code; and the source's error
      type, or, when there is none or only the placeholder, a name made from the code, or from the
      span's error. */
  lemma ErrorNamesItsSource(env: Env, raw: RawSignal, ex: Execution)
    requires NormalizeSignal(env, raw) == Some(ex)
    ensures var errType, code := Attr(RawAttributes(raw), ErrorType), Attr(RawAttributes(raw), ResponseCode);
      && ex.errorCode == code
      && (errType !in ["", "_OTHER"] ==> ex.errorType == errType)
      && (errType in ["", "_OTHER"] && code != "" && CallerFault(code) ==>
            ex.errorType == "caller_jsonrpc_" + code[1..])
      && (errType == "" && code != "" && !CallerFault(code) ==> ex.errorType == "jsonrpc_" + code)
      && (errType == "_OTHER" && (code == "" || !CallerFault(code)) ==> ex.errorType == "_OTHER")
      && (errType == "" && code == "" ==>
            ex.errorType == if raw.RawSpan? && raw.span.status == Some(CodeError) then "span_error" else "")
  {
    hide AttributesOf, IsToolCall, SourceFrom, Classify, StatusRule, Attr, Get, HexID, FirstNonEmpty, DurationMS,
      LogCompleted, Offered, CallerFault;
    var attrs := RawAttributes(raw);
    var errType, code := Attr(attrs, ErrorType), Attr(attrs, ResponseCode);
    match raw
    case RawLog(record) => ErrorTexts(errType, code, CodeUnset, LogCompleted(attrs));
    case RawSpan(span) =>
      var spanCode := if span.status.Some? then span.status.value else CodeUnset;
      ErrorTexts(errType, code, spanCode, span.endTimeUnixNano != 0);
  }

  lemma ErrorTexts(errType: string, code: string, spanCode: StatusCode, completed: bool)
    ensures var o := StatusRule(errType, code, spanCode, completed);
      && o.errorCode == code
      && (errType !in ["", "_OTHER"] ==> o.errorType == errType)
      && (errType in ["", "_OTHER"] && code != "" && CallerFault(code) ==> o.errorType == "caller_jsonrpc_" + code[1..])
      && (errType == "" && code != "" && !CallerFault(code) ==> o.errorType == "jsonrpc_" + code)
      && (errType == "_OTHER" && (code == "" || !CallerFault(code)) ==> o.errorType == "_OTHER")
      && (errType == "" && code == "" ==> o.errorType == if spanCode.CodeError? then "span_error" else "")
  {
    if Contains(ToLower(errType), "cancel") {
      CancelIsNotBlank(errType);
      OtherIsNoCancel(errType);
    }
    hide Contains, ToLower;
    NothingIsBlank();
    NotBlank("_OTHER", "");
    assert "_OTHER" + "" == "_OTHER";
    NotBlank("jsonrpc_", code);
    NotBlank("span_", "error");
    assert "span_" + "error" == "span_error";
    hide Blank;
    if CallerFault(code) { CallerFaultIsNegative(code); }
  }

  lemma CallerFaultIsNegative(code: string)
    requires CallerFault(code)
    ensures code in CALLER_FAULT_CODES && code != "" && TrimMinus(code) == code[1..]
  {}

  lemma OtherIsNoCancel(errType: string)
    requires Contains(ToLower(errType), "cancel")
    ensures errType != "_OTHER" && errType != ""
  {
    ContainsFirst(ToLower(errType), "cancel");
    var i :| 0 <= i < |errType| && ToLower(errType)[i] == 'c';
    assert "_OTHER"[0] != 'c' && "_OTHER"[1] != 'C';
  }

  /** Everything assembly relies on about one normalized signal. */
  ghost predicate WellNormalized(raw: RawSignal, ex: Execution) {
    && Coherent(ex.correlation, ex.operationID, ex.correlationDetail)
    && VerdictFrom(ex.correlation, ex.operationID) == VerdictOf(Tokens(RawAttributes(raw)))
    && ex.seenFrom == [NameOf(KindOf(raw))]
    && ex.source.transport == "otlp_" + NameOf(KindOf(raw))
    && ex.disagreements == []
    && (raw.RawLog? ==> ex.parentSpanID == "" && ex.spanKind == "")
    && (ErrorsMarked(ex.status, ex.errorType, ex.errorCode) <==>
        !BlankButSet(Attr(RawAttributes(raw), ErrorType)))
    && (!Failed(ex.status) ==> ex.errorType == "" && ex.errorCode == "")
    && PlainWithoutID(ex.correlation, ex.correlationDetail) && !Misleads(ex.correlation, ex.correlationDetail)
    && StatusFits(raw, ex.status) && PayloadFits(raw, ex) && FieldsFit(raw, ex)
  }

  lemma SignalExplainsItself(attrs: Attrs)
    ensures PlainWithoutID(Classify(attrs).correlation, Classify(attrs).detail)
    ensures !Misleads(Classify(attrs).correlation, Classify(attrs).detail)
  {
    hide ClassifySpec, OperationIDs, PlainWithoutID, Misleads;
    ClassificationExplainsItself(OperationIDs(attrs));
  }

  lemma NormalizedIsWellNormalized(env: Env, raw: RawSignal, ex: Execution)
    requires NormalizeSignal(env, raw) == Some(ex)
    ensures WellNormalized(raw, ex)
  {
    hide PlainWithoutID, Misleads, Failed, StatusFits, PayloadFits, FieldsFit, ClassifySpec, Offered, AttributesOf,
      IsToolCall, SourceFrom, Classify, StatusRule, Tokens, VerdictOf, Coherent, ErrorsMarked,
      BlankButSet, Attr, Get, HexID, FirstNonEmpty, DurationMS;
    var attrs := RawAttributes(raw);
    SignalVerdictIsTokenVerdict(attrs);
    StatusFitsTelemetry(env, raw, ex);
    PayloadFitsTelemetry(env, raw, ex);
    FieldsFitTelemetry(env, raw, ex);
    SignalExplainsItself(attrs);
    var errType, code := Attr(attrs, ErrorType), Attr(attrs, ResponseCode);
    match raw
    case RawLog(record) =>
      StatusMarksErrors(errType, code, CodeUnset, LogCompleted(attrs));
      SourceTransport(attrs, "otlp_logs");
      assert "otlp_" + "logs" == "otlp_logs";
    case RawSpan(span) =>
      var spanCode := if span.status.Some? then span.status.value else CodeUnset;
      StatusMarksErrors(errType, code, spanCode, span.endTimeUnixNano != 0);
      SourceTransport(attrs, "otlp_traces");
      assert "otlp_" + "traces" == "otlp_traces";
  }

  lemma SourceTransport(attrs: Attrs, transport: string)
    ensures SourceFrom(attrs, transport).transport == transport
  {}

  // ---------------------------------------------------------------- exact join

  lemma {:induction false} HexIsInjective(a: seq<byte>, b: seq<byte>)
    requires HexID(a) == HexID(b)
    ensures a == b
  {
    if a != [] && b != [] {
      var x, y := HexID(a), HexID(b);
      assert x[0] == HexDigit(a[0] as int / 16) && x[1] == HexDigit(a[0] as int % 16);
      assert y[0] == HexDigit(b[0] as int / 16) && y[1] == HexDigit(b[0] as int % 16);
      assert a[0] == b[0];
      assert HexID(a[1..]) == x[2..] && HexID(b[1..]) == y[2..];
      HexIsInjective(a[1..], b[1..]);
      assert a == [a[0]] + a[1..] && b == [b[0]] + b[1..];
    }
  }

  lemma HexIsTrimmed(id: seq<byte>)
    ensures Trimmed(HexID(id)) && '/' !in HexID(id)
    ensures id != [] ==> !Blank(HexID(id))
  {
    var s := HexID(id);
    if id != [] { assert s[0] in s && s[|s| - 1] in s; }
  }

  lemma SeparatorIsUnique(a: string, b: string, c: string, d: string)
    requires '/' !in a && '/' !in c && a + "/" + b == c + "/" + d
    ensures a == c && b == d
  {
    var x, y := a + "/" + b, c + "/" + d;
    assert x[|a|] == '/' && y[|c|] == '/';
    assert |a| >= |c| by { assert forall i :: 0 <= i < |c| ==> y[i] == c[i]; }
    assert |a| <= |c| by { assert forall i :: 0 <= i < |a| ==> x[i] == a[i]; }
    assert a == x[..|a|] && c == y[..|c|] && b == x[|a| + 1..] && d == y[|c| + 1..];
  }

  /** Over bytes: hex is injective and the separator unique, so a key determines both ids. */
  lemma HexKeysAreExact(traceA: seq<byte>, spanA: seq<byte>, traceB: seq<byte>, spanB: seq<byte>)
    requires traceA != [] && spanA != [] && traceB != [] && spanB != []
    ensures JoinKey(HexID(traceA), HexID(spanA)) != ""
    ensures JoinKey(HexID(traceA), HexID(spanA)) == JoinKey(HexID(traceB), HexID(spanB)) <==>
      traceA == traceB && spanA == spanB
  {
    hide HexID, TrimSpace;
    HexIsTrimmed(traceA);
    HexIsTrimmed(spanA);
    HexIsTrimmed(traceB);
    HexIsTrimmed(spanB);
    if HexID(traceA) + "/" + HexID(spanA) == HexID(traceB) + "/" + HexID(spanB) {
      SeparatorIsUnique(HexID(traceA), HexID(spanA), HexID(traceB), HexID(spanB));
      HexIsInjective(traceA, traceB);
      HexIsInjective(spanA, spanB);
    }
  }

  /** The key can be read as these two ids: split at this slash, both halves are ids as trimmed. */
  predicate ReadsAs(key: string, i: int) {
    0 < i < |key| - 1 && key[i] == '/' && Trimmed(key[..i]) && Trimmed(key[i + 1..])
  }

  /** Other ids that give the same key. */
  ghost predicate Collides(traceID: string, spanID: string, t: string, s: string) {
    && JoinKey(t, s) == JoinKey(traceID, spanID)
    && (TrimSpace(t) != TrimSpace(traceID) || TrimSpace(s) != TrimSpace(spanID))
  }

  lemma CollisionReads(traceID: string, spanID: string, t: string, s: string)
    requires !Blank(traceID) && !Blank(spanID) && Collides(traceID, spanID, t, s)
    ensures ReadsAs(JoinKey(traceID, spanID), |TrimSpace(t)|) && |TrimSpace(t)| != |TrimSpace(traceID)|
  {
    hide TrimSpace;
    KeyReads(traceID, spanID);
    KeyReads(t, s);
  }

  /** A key that is not empty reads as its own ids. */
  lemma KeyReads(t: string, s: string)
    requires JoinKey(t, s) != ""
    ensures var key, i := JoinKey(t, s), |TrimSpace(t)|;
      ReadsAs(key, i) && key[..i] == TrimSpace(t) && key[i + 1..] == TrimSpace(s)
  {
    hide TrimSpace;
    var key, i := JoinKey(t, s), |TrimSpace(t)|;
    assert key == TrimSpace(t) + "/" + TrimSpace(s);
    assert key[..i] == TrimSpace(t) && key[i + 1..] == TrimSpace(s);
  }

  lemma ReadingCollides(traceID: string, spanID: string, i: int)
    requires !Blank(traceID) && !Blank(spanID) && ReadsAs(JoinKey(traceID, spanID), i) && i != |TrimSpace(traceID)|
    ensures var key := JoinKey(traceID, spanID); Collides(traceID, spanID, key[..i], key[i + 1..])
  {
    hide TrimSpace, JoinKey;
    var key := JoinKey(traceID, spanID);
    var t, s := key[..i], key[i + 1..];
    KeySplits(key, i);
    hide ReadsAs;
    TrimmedKey(t, s);
  }

  lemma KeySplits(key: string, i: int)
    requires ReadsAs(key, i)
    ensures key == key[..i] + "/" + key[i + 1..] && key[..i] != "" && key[i + 1..] != "" && |key[..i]| == i
    ensures Trimmed(key[..i]) && Trimmed(key[i + 1..])
  {
    hide Trimmed;
  }

  /** The key of any two ids that are not blank is exact, up to blanks around them, if and only if
      it reads as ids in one way only. Ids made by hexID do, whatever attributes carry may not. */
  lemma KeyIsExactExactlyWhen(traceID: string, spanID: string)
    requires !Blank(traceID) && !Blank(spanID)
    ensures (forall t, s :: !Collides(traceID, spanID, t, s)) <==>
      forall i :: ReadsAs(JoinKey(traceID, spanID), i) ==> i == |TrimSpace(traceID)|
  {
    hide TrimSpace, ReadsAs, JoinKey, Collides;
    if t, s :| Collides(traceID, spanID, t, s) { CollisionReads(traceID, spanID, t, s); }
    forall i | ReadsAs(JoinKey(traceID, spanID), i) && i != |TrimSpace(traceID)|
      ensures exists t, s :: Collides(traceID, spanID, t, s)
    {
      ReadingHalves(traceID, spanID, i);
    }
  }

  lemma ReadingHalves(traceID: string, spanID: string, i: int)
    requires !Blank(traceID) && !Blank(spanID) && ReadsAs(JoinKey(traceID, spanID), i) && i != |TrimSpace(traceID)|
    ensures exists t, s :: Collides(traceID, spanID, t, s)
  {
    hide TrimSpace, Collides;
    ReadingCollides(traceID, spanID, i);
  }

  lemma TrimmedKey(t: string, s: string)
    requires Trimmed(t) && Trimmed(s) && t != "" && s != ""
    ensures TrimSpace(t) == t && TrimSpace(s) == s && JoinKey(t, s) == t + "/" + s
  {
    hide TrimSpace;
  }

  /** A trace id with a slash, which only an attribute can carry, shares its key with other ids. */
  lemma SlashedTraceCollides()
    ensures Collides("a/b", "c", "a", "b/c")
  {
    assert Trimmed("a/b") && Trimmed("c") && Trimmed("a") && Trimmed("b/c");
    TrimmedKey("a/b", "c");
    TrimmedKey("a", "b/c");
    assert "a/b" + "/" + "c" == "a" + "/" + "b/c";
  }

  /** The key of a signal that carries both ids is the hex of exactly those ids. */
  lemma KeyOfByteIDs(env: Env, raw: RawSignal, ex: Execution)
    requires NormalizeSignal(env, raw) == Some(ex)
    requires RawTrace(raw) != [] && RawSpanID(raw) != []
    ensures JoinKey(ex.traceID, ex.spanID) == HexID(RawTrace(raw)) + "/" + HexID(RawSpanID(raw))
    ensures JoinKey(ex.traceID, ex.spanID) != ""
  {
    HexIsTrimmed(RawTrace(raw));
    HexIsTrimmed(RawSpanID(raw));
  }

  /** The join is exact: two signals share a key just when their raw id bytes are equal, and the
      key a client span claims is the key of the signals carrying its parent's id bytes. */
  lemma JoinIsExact(env: Env, a: RawSignal, b: RawSignal, exA: Execution, exB: Execution)
    requires NormalizeSignal(env, a) == Some(exA) && NormalizeSignal(env, b) == Some(exB)
    requires RawTrace(a) != [] && RawSpanID(a) != [] && RawTrace(b) != [] && RawSpanID(b) != []
    ensures JoinKey(exA.traceID, exA.spanID) == JoinKey(exB.traceID, exB.spanID) <==>
      RawTrace(a) == RawTrace(b) && RawSpanID(a) == RawSpanID(b)
    ensures a.RawSpan? ==>
      (exA.traceID + "/" + exA.parentSpanID == JoinKey(exB.traceID, exB.spanID) <==>
       RawTrace(a) == RawTrace(b) && a.span.parentSpanId == RawSpanID(b))
  {
    KeyOfByteIDs(env, a, exA);
    KeyOfByteIDs(env, b, exB);
    var traceA, traceB, spanB := HexID(RawTrace(a)), HexID(RawTrace(b)), HexID(RawSpanID(b));
    HexIsTrimmed(RawTrace(a));
    HexIsTrimmed(RawTrace(b));
    forall id: seq<byte> | traceA + "/" + HexID(id) == traceB + "/" + spanB
      ensures RawTrace(a) == RawTrace(b) && id == RawSpanID(b)
    {
      SeparatorIsUnique(traceA, HexID(id), traceB, spanB);
      HexIsInjective(RawTrace(a), RawTrace(b));
      HexIsInjective(id, RawSpanID(b));
    }
  }

  /** The parent key built during assembly is not trimmed: for ids that are not blank it is the key
      of the signals carrying them exactly when neither has blanks around it. */
  lemma ParentKeyIsJoinKeyExactlyWhen(traceID: string, parentSpanID: string)
    requires !Blank(traceID) && !Blank(parentSpanID)
    ensures traceID + "/" + parentSpanID == JoinKey(traceID, parentSpanID) <==>
      Trimmed(traceID) && Trimmed(parentSpanID)
  {
    var trace, span := TrimSpace(traceID), TrimSpace(parentSpanID);
    TrimShortens(traceID);
    TrimShortens(parentSpanID);
    if traceID + "/" + parentSpanID == trace + "/" + span {
      assert |traceID| + |parentSpanID| == |trace| + |span|;
    }
  }

  /** Trimming that removes something makes the string shorter. */
  lemma TrimShortens(s: string)
    ensures Trimmed(s) || |TrimSpace(s)| < |s|
  {}

  /** A span without trace bytes takes its trace id from an attribute, as it stands: the parent it
      claims is then filed under another key exactly when that attribute has blanks around it. */
  lemma AttributeTraceClaimsExactlyWhen(span: Span)
    requires FromSpan(span).Some? && span.traceId == [] && span.parentSpanId != []
    requires !Blank(Get(AttributesOf(span.attributes), "trace.id"))
    ensures var ex, trace := FromSpan(span).value, Get(AttributesOf(span.attributes), "trace.id");
      ex.traceID + "/" + ex.parentSpanID == JoinKey(ex.traceID, ex.parentSpanID) <==> Trimmed(trace)
  {
    hide AttributesOf, IsToolCall, Attr, SourceFrom, Classify, StatusRule, Offered, TrimSpace;
    var ex, trace := FromSpan(span).value, Get(AttributesOf(span.attributes), "trace.id");
    NothingIsBlank();
    HexIsTrimmed(span.parentSpanId);
    assert HexID(span.traceId) == "" && ex.traceID == trace && ex.parentSpanID == HexID(span.parentSpanId);
    ParentKeyIsJoinKeyExactlyWhen(trace, HexID(span.parentSpanId));
  }

  const UNTRIMMED_PARENT := Span([], [1], [2], KindClient, 1, 2, None,
    [KeyValue("mcp.method.name", Some(StringValue("tools/call"))),
     KeyValue("gen_ai.tool.name", Some(StringValue("restart"))),
     KeyValue("trace.id", Some(StringValue(" t")))])

  lemma UntrimmedAttributes()
    ensures AttributesOf(UNTRIMMED_PARENT.attributes) ==
      map["mcp.method.name" := "tools/call", "gen_ai.tool.name" := "restart", "trace.id" := " t"]
  {
    var a := UNTRIMMED_PARENT.attributes;
    assert AttributesOf(a[..0]) == map[];
    assert a[..1][..0] == a[..0] && a[..2][..1] == a[..1] && a[..3][..2] == a[..2] && a[..3] == a;
    assert AttributesOf(a[..1]) == map["mcp.method.name" := "tools/call"];
    assert AttributesOf(a[..2]) == map["mcp.method.name" := "tools/call", "gen_ai.tool.name" := "restart"];
  }

  /** And such a client span can arrive. */
  lemma ParentKeyCanMiss()
    ensures FromSpan(UNTRIMMED_PARENT).Some? && FromSpan(UNTRIMMED_PARENT).value.spanKind == SPAN_KIND_CLIENT
    ensures var ex := FromSpan(UNTRIMMED_PARENT).value;
      ex.traceID + "/" + ex.parentSpanID != JoinKey(ex.traceID, ex.parentSpanID)
  {
    hide AttributesOf, SourceFrom, Classify, StatusRule, Offered, HexID, TrimSpace, FirstNonEmpty, IsSpace;
    UntrimmedAttributes();
    var attrs := AttributesOf(UNTRIMMED_PARENT.attributes);
    assert Attr(attrs, MethodName) == "tools/call" && Attr(attrs, ToolName) == "restart";
    assert Get(attrs, "mcp.resource.type") == "" && Get(attrs, "trace.id") == " t";
    hide Attr, Get;
    BlankThenLetter();
    AttributeTraceClaimsExactlyWhen(UNTRIMMED_PARENT);
  }

  lemma BlankThenLetter()
    ensures !Trimmed(" t") && !Blank(" t")
  {
    assert " t"[1] == 't' && !IsSpace('t');
  }

  // ---------------------------------------------------------------- non-interference

  /** The attributes whose values must never reach a record. */
  predicate Withheld(key: string) {
    key == "http.status" || key == "http.status_code" || key in RAW_PAYLOAD_KEYS
  }

  /** Equal except in the values of withheld attributes, agreeing on which of those are empty. */
  ghost predicate AgreeOutside(a: Attrs, b: Attrs) {
    forall key :: if Withheld(key) then (Get(a, key) == "" <==> Get(b, key) == "") else Get(a, key) == Get(b, key)
  }

  lemma {:induction false} FirstSetAgrees(a: Attrs, b: Attrs, keys: seq<string>)
    requires AgreeOutside(a, b) && forall key :: key in keys ==> !Withheld(key)
    ensures FirstSet(a, keys) == FirstSet(b, keys)
  {
    if keys != [] {
      assert keys[0] in keys;
      FirstSetAgrees(a, b, keys[1..]);
    }
  }

  lemma AttrAgrees(a: Attrs, b: Attrs, canonical: Canonical)
    requires AgreeOutside(a, b)
    ensures Attr(a, canonical) == Attr(b, canonical)
  {
    forall key | key in KeysOf(canonical) ensures !Withheld(key) {}
    FirstSetAgrees(a, b, KeysOf(canonical));
  }

  lemma {:induction false} CollectAgrees(a: Attrs, b: Attrs, keys: seq<string>, found: seq<string>)
    requires AgreeOutside(a, b) && forall key :: key in keys ==> !Withheld(key)
    ensures Collect(found, a, keys) == Collect(found, b, keys)
    decreases keys
  {
    if keys != [] {
      assert keys[0] in keys;
      CollectAgrees(a, b, keys[1..], AddAll(found, Split(Get(a, keys[0]), ',')));
    }
  }

  lemma PlainAgrees(a: Attrs, b: Attrs, key: string)
    requires AgreeOutside(a, b)
    requires key in ["mcp.target", "trace.id", "span.id", "duration", "duration_ms",
                     "mcp.resource.type", "service.name", "network.transport"]
    ensures Get(a, key) == Get(b, key)
  {
    assert !Withheld(key);
  }

  lemma OfferedAgrees(a: Attrs, b: Attrs, key: string)
    requires AgreeOutside(a, b) && key in RAW_PAYLOAD_KEYS
    ensures Offered(a, key) == Offered(b, key)
  {
    assert Withheld(key);
  }

  lemma ClassifyAgrees(a: Attrs, b: Attrs)
    requires AgreeOutside(a, b)
    ensures Classify(a) == Classify(b)
  {
    forall key | key in OPERATION_ID_KEYS ensures !Withheld(key) {}
    CollectAgrees(a, b, OPERATION_ID_KEYS, []);
  }

  lemma LogCompletedAgrees(a: Attrs, b: Attrs)
    requires AgreeOutside(a, b)
    ensures LogCompleted(a) == LogCompleted(b)
  {
    PlainAgrees(a, b, "duration");
    PlainAgrees(a, b, "duration_ms");
    assert Withheld("http.status") && Withheld("http.status_code");
  }

  lemma SharedFieldsAgree(a: Attrs, b: Attrs, transport: string)
    requires AgreeOutside(a, b)
    ensures IsToolCall(a) == IsToolCall(b)
    ensures SourceFrom(a, transport) == SourceFrom(b, transport)
  {
    forall canonical { AttrAgrees(a, b, canonical); }
    PlainAgrees(a, b, "mcp.resource.type");
    PlainAgrees(a, b, "service.name");
    PlainAgrees(a, b, "network.transport");
  }

  /** No HTTP status value and no raw argument or result text can influence a log's record. */
  lemma LogWithholdsPayload(env: Env, record: LogRecord, attributes: seq<KeyValue>)
    requires AgreeOutside(AttributesOf(record.attributes), AttributesOf(attributes))
    ensures FromLogRecord(env, record) == FromLogRecord(env, record.(attributes := attributes))
  {
    hide AttributesOf, AgreeOutside, IsToolCall, SourceFrom, Classify, LogCompleted, Offered, StatusRule, Attr,
      Get, HexID, FirstNonEmpty, DurationMS;
    var a, b := AttributesOf(record.attributes), AttributesOf(attributes);
    SharedFieldsAgree(a, b, "otlp_logs");
    forall canonical { AttrAgrees(a, b, canonical); }
    LogCompletedAgrees(a, b);
    ClassifyAgrees(a, b);
    OfferedAgrees(a, b, RAW_PAYLOAD_KEYS[0]);
    OfferedAgrees(a, b, RAW_PAYLOAD_KEYS[1]);
    PlainAgrees(a, b, "mcp.target");
    PlainAgrees(a, b, "trace.id");
    PlainAgrees(a, b, "span.id");
    PlainAgrees(a, b, "duration");
    PlainAgrees(a, b, "duration_ms");
  }

  /** Nor a span's. */
  lemma SpanWithholdsPayload(span: Span, attributes: seq<KeyValue>)
    requires AgreeOutside(AttributesOf(span.attributes), AttributesOf(attributes))
    ensures FromSpan(span) == FromSpan(span.(attributes := attributes))
  {
    hide AttributesOf, AgreeOutside, IsToolCall, SourceFrom, Classify, Offered, StatusRule, Attr, Get, HexID,
      FirstNonEmpty;
    var a, b := AttributesOf(span.attributes), AttributesOf(attributes);
    SharedFieldsAgree(a, b, "otlp_traces");
    forall canonical { AttrAgrees(a, b, canonical); }
    ClassifyAgrees(a, b);
    OfferedAgrees(a, b, RAW_PAYLOAD_KEYS[0]);
    OfferedAgrees(a, b, RAW_PAYLOAD_KEYS[1]);
    PlainAgrees(a, b, "mcp.target");
    PlainAgrees(a, b, "trace.id");
    PlainAgrees(a, b, "span.id");
  }
}
