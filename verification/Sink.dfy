/** The JSONL sink: a transactional append over a file that may take only part of a line. */
module Sink {
  import opened Text
  import opened Observation

  type bytes = seq<byte>

  const NEWLINE: byte := 10
  const CARRIAGE_RETURN: byte := 13

  /** The record codec: what it writes it reads back, on one non-empty line. */
  ghost predicate LawfulCodec(env: Env) {
    forall ex :: env.encode(ex).Some? ==>
      var raw := env.encode(ex).value;
      env.decode(raw) == Some(ex) && raw != [] && NEWLINE !in raw && raw[|raw| - 1] != CARRIAGE_RETURN
  }

  /** json.Marshal plus the newline. */
  function Line(env: Env, ex: Execution): bytes
    requires env.encode(ex).Some?
  {
    env.encode(ex).value + [NEWLINE]
  }

  // ---------------------------------------------------------------- one write, on values

  /** The sink: the bytes of its file, and whether an append could not be rolled back. */
  datatype State = State(file: bytes, poisoned: bool)

  /** What the platform does during one Write: the context is already cancelled, or cancelled
      while waiting for the lock; Stat fails; or the append takes `taken` bytes, reports an
      error or not, and a rollback, if one is needed, works or not. */
  datatype Weather =
    | Cancelled
    | StatFails
    | Append(taken: nat, reportsError: bool, truncates: bool)

  datatype Outcome = Outcome(state: State, ok: bool)

  function Taken(weather: Weather, line: bytes): nat
    requires weather.Append?
  {
    if weather.taken < |line| then weather.taken else |line|
  }

  function WriteStep(env: Env, s: State, ex: Execution, weather: Weather): Outcome {
    if weather.Cancelled? || env.encode(ex).None? || s.poisoned || weather.StatFails? then Outcome(s, false)
    else
      var line := Line(env, ex);
      var taken := Taken(weather, line);
      if !weather.reportsError && taken == |line| then Outcome(State(s.file + line, false), true)
      else if weather.truncates then Outcome(s, false)
      else Outcome(State(s.file + line[..taken], true), false)
  }

  // ---------------------------------------------------------------- one write, as it runs

  /** The os.File behind the sink, opened for append. */
  class AppendFile {
    var data: bytes

    constructor (initial: bytes)
      ensures data == initial
    {
      data := initial;
    }

    method Write(p: bytes, taken: nat, reportsError: bool) returns (n: nat, err: bool)
      modifies this
      ensures n == (if taken < |p| then taken else |p|) && err == reportsError
      ensures data == old(data) + p[..n]
    {
      n := if taken < |p| then taken else |p|;
      err := reportsError;
      data := data + p[..n];
    }

    /** A failed Truncate leaves the file as it was. */
    method Truncate(size: nat, works: bool) returns (err: bool)
      requires size <= |data|
      modifies this
      ensures err == !works
      ensures data == if works then old(data)[..size] else old(data)
    {
      if works { data := data[..size]; }
      err := !works;
    }
  }

  class JSONL {
    const f: AppendFile
    var poisoned: bool

    constructor (f: AppendFile)
      ensures this.f == f && Snapshot() == State(f.data, false)
    {
      this.f := f;
      poisoned := false;
    }

    ghost function Snapshot(): State
      reads this, f
    {
      State(f.data, poisoned)
    }

    method Write(env: Env, ex: Execution, weather: Weather) returns (ok: bool)
      modifies this`poisoned, f
      ensures Outcome(Snapshot(), ok) == WriteStep(env, old(Snapshot()), ex, weather)
      ensures ok <==> !old(poisoned) && env.encode(ex).Some? && Takes(weather, Line(env, ex))
      ensures poisoned <==>
        || old(poisoned)
        || (env.encode(ex).Some? && weather.Append? && !Takes(weather, Line(env, ex)) && !weather.truncates)
    {
      if weather.Cancelled? { return false; }
      if env.encode(ex).None? { return false; }
      var line := Line(env, ex);
      if poisoned { return false; }
      if weather.StatFails? { return false; }
      var start := |f.data|;
      var n, writeErr := f.Write(line, weather.taken, weather.reportsError);
      if !writeErr && n == |line| { return true; }
      var rollbackErr := f.Truncate(start, weather.truncates);
      if rollbackErr { poisoned := true; }
      return false;
    }
  }

  /** The append takes the whole line and reports no error. */
  predicate Takes(weather: Weather, line: bytes) {
    weather.Append? && !weather.reportsError && weather.taken >= |line|
  }

  /** When a write is accepted, and when a failure poisons the sink, from what the platform did: an
      unpoisoned sink accepts a record exactly when it encodes and the append takes its whole line,
      and is poisoned exactly when an append that was tried fails and cannot be rolled back. */
  lemma WriteSucceedsExactlyWhen(env: Env, s: State, ex: Execution, weather: Weather)
    ensures var o := WriteStep(env, s, ex, weather);
      && (o.ok <==> !s.poisoned && env.encode(ex).Some? && Takes(weather, Line(env, ex)))
      && (o.state.poisoned <==>
            s.poisoned ||
            (env.encode(ex).Some? && weather.Append? && !Takes(weather, Line(env, ex)) && !weather.truncates))
  {}

  /** Write is all or nothing unless it poisons: success appends exactly one whole line; a
      failure leaves the sink and its file as they were and usable, or, if it cannot be rolled back,
      leaves the prefix of that one line the append took and the sink refusing everything from then
      on. */
  lemma WriteIsTransactional(env: Env, s: State, ex: Execution, weather: Weather)
    ensures var o := WriteStep(env, s, ex, weather);
      && (o.ok ==> !s.poisoned && !o.state.poisoned && env.encode(ex).Some? && o.state.file == s.file + Line(env, ex))
      && (!o.ok && o.state.poisoned == s.poisoned ==> o.state == s)
      && (o.state.poisoned && !s.poisoned ==>
            (!o.ok && env.encode(ex).Some? && weather.Append? && !weather.truncates &&
             exists n :: 0 <= n <= |Line(env, ex)| && n <= weather.taken &&
               o.state.file == s.file + Line(env, ex)[..n] && (n < |Line(env, ex)| ==> n == weather.taken)))
      && (s.poisoned ==> o == Outcome(s, false))
  {
    WriteSucceedsExactlyWhen(env, s, ex, weather);
  }

  // ---------------------------------------------------------------- a history of writes

  datatype Attempt = Attempt(ex: Execution, weather: Weather)

  function After(env: Env, s: State, attempts: seq<Attempt>): State {
    if attempts == [] then s
    else WriteStep(env, After(env, s, attempts[..|attempts| - 1]),
                   attempts[|attempts| - 1].ex, attempts[|attempts| - 1].weather).state
  }

  /** The executions whose write was reported as a success, in order. */
  function Accepted(env: Env, s: State, attempts: seq<Attempt>): seq<Execution> {
    if attempts == [] then []
    else
      var init, last := attempts[..|attempts| - 1], attempts[|attempts| - 1];
      Accepted(env, s, init) + if WriteStep(env, After(env, s, init), last.ex, last.weather).ok then [last.ex] else []
  }

  predicate Encodable(env: Env, records: seq<Execution>) {
    forall i :: 0 <= i < |records| ==> env.encode(records[i]).Some?
  }

  function Lines(env: Env, records: seq<Execution>): bytes
    requires Encodable(env, records)
  {
    if records == [] then []
    else Lines(env, records[..|records| - 1]) + Line(env, records[|records| - 1])
  }

  lemma LinesSnoc(env: Env, records: seq<Execution>, ex: Execution)
    requires Encodable(env, records) && env.encode(ex).Some?
    ensures Encodable(env, records + [ex])
    ensures Lines(env, records + [ex]) == Lines(env, records) + Line(env, ex)
  {
    assert (records + [ex])[..|records|] == records;
  }

  /** Until the sink is poisoned, its file is its initial content and one whole line per
      accepted record, however many writes failed in between. */
  lemma {:induction false} FileIsAcceptedLines(env: Env, s: State, attempts: seq<Attempt>)
    ensures var accepted, t := Accepted(env, s, attempts), After(env, s, attempts);
      Encodable(env, accepted) && (!t.poisoned ==> t.file == s.file + Lines(env, accepted))
  {
    if attempts != [] {
      var init, last := attempts[..|attempts| - 1], attempts[|attempts| - 1];
      FileIsAcceptedLines(env, s, init);
      var t, o := After(env, s, init), WriteStep(env, After(env, s, init), last.ex, last.weather);
      WriteIsTransactional(env, t, last.ex, last.weather);
      var before := Accepted(env, s, init);
      assert before + [] == before;
      if o.ok {
        LinesSnoc(env, before, last.ex);
        assert o.state.file == s.file + Lines(env, before) + Line(env, last.ex);
        assert o.state.file == s.file + Lines(env, before + [last.ex]);
      }
    }
  }

  // ---------------------------------------------------------------- reading back

  /** The scanner's buffer: a line and its newline must fit. */
  const MAX_TOKEN := 8 * 1024 * 1024

  datatype Read = ReadOk(records: seq<Execution>) | BadLine(line: nat) | TooLong

  /** The length of the first line, without its newline. */
  function LineLength(data: bytes): (n: nat)
    ensures n <= |data|
    ensures NEWLINE !in data[..n]
    ensures n < |data| ==> data[n] == NEWLINE
  {
    if data == [] || data[0] == NEWLINE then 0 else 1 + LineLength(data[1..])
  }

  function DropCR(line: bytes): bytes {
    if line != [] && line[|line| - 1] == CARRIAGE_RETURN then line[..|line| - 1] else line
  }

  /** What remains after the first line and its newline. */
  function Rest(data: bytes): (r: bytes)
    ensures data != [] ==> |r| < |data|
  {
    if LineLength(data) < |data| then data[LineLength(data) + 1..] else []
  }

  function ReadFrom(env: Env, data: bytes, line: nat, out: seq<Execution>): Read
    decreases |data|
  {
    if data == [] then ReadOk(out)
    else if LineLength(data) >= MAX_TOKEN then TooLong
    else
      var token := DropCR(data[..LineLength(data)]);
      if token == [] then ReadFrom(env, Rest(data), line + 1, out)
      else if env.decode(token).None? then BadLine(line + 1)
      else ReadFrom(env, Rest(data), line + 1, out + [env.decode(token).value])
  }

  /** ReadAll: a scan loop appending to out, stopping at the first unreadable line. */
  method ReadAll(env: Env, file: bytes) returns (r: Read)
    ensures r == ReadFrom(env, file, 0, [])
  {
    var out: seq<Execution> := [];
    var data, line := file, 0;
    while data != []
      invariant ReadFrom(env, data, line, out) == ReadFrom(env, file, 0, [])
      decreases |data|
    {
      var n := LineLength(data);
      if n >= MAX_TOKEN { return TooLong; }
      var token := DropCR(data[..n]);
      data := Rest(data);
      line := line + 1;
      if token == [] { continue; }
      var decoded := env.decode(token);
      if decoded.None? { return BadLine(line); }
      out := out + [decoded.value];
    }
    return ReadOk(out);
  }

  // ---------------------------------------------------------------- reading any file

  /** Lines, each ended by a newline. */
  function FileOf(lines: seq<bytes>): bytes {
    if lines == [] then [] else lines[0] + [NEWLINE] + FileOf(lines[1..])
  }

  /** The lines of a file, the last one with or without its newline. */
  function LinesOf(data: bytes): seq<bytes>
    decreases |data|
  {
    if data == [] then [] else [data[..LineLength(data)]] + LinesOf(Rest(data))
  }

  predicate Ended(data: bytes) { data == [] || data[|data| - 1] == NEWLINE }

  /** No line holds a newline, and the lines are the file, up to a newline missing at its end. */
  lemma {:induction false} LinesAreTheFile(data: bytes)
    ensures forall i :: 0 <= i < |LinesOf(data)| ==> NEWLINE !in LinesOf(data)[i]
    ensures FileOf(LinesOf(data)) == if Ended(data) then data else data + [NEWLINE]
    decreases |data|
  {
    hide FileOf;
    if data == [] {
      EmptyFile();
    } else {
      var line, rest := data[..LineLength(data)], Rest(data);
      LinesAreTheFile(rest);
      FileOfMore(line, LinesOf(rest));
      FirstLineEnds(data);
    }
  }

  lemma EmptyFile()
    ensures FileOf([]) == []
  {}

  lemma FileOfMore(line: bytes, more: seq<bytes>)
    ensures FileOf([line] + more) == line + [NEWLINE] + FileOf(more)
  {
    assert ([line] + more)[1..] == more;
  }

  /** The first line and its newline, and then the rest; without a newline there is no rest. */
  lemma FirstLineEnds(data: bytes)
    requires data != []
    ensures var line, rest := data[..LineLength(data)], Rest(data);
      if Ended(data) then Ended(rest) && data == line + [NEWLINE] + rest
      else
        && data + [NEWLINE] == line + [NEWLINE] + (if rest == [] then [] else rest + [NEWLINE])
        && (rest == [] || !Ended(rest))
  {
    hide LineLength;
    var n := LineLength(data);
    if n == |data| {
      assert data[..n] == data && data[|data| - 1] in data;
    } else {
      assert data == data[..n] + [NEWLINE] + data[n + 1..];
    }
  }

  /** What the line says: a carriage return before the newline does not count. */
  lemma ReturnIsDropped(line: bytes)
    ensures DropCR(line + [CARRIAGE_RETURN]) == line
    ensures line == [] || line[|line| - 1] != CARRIAGE_RETURN ==> DropCR(line) == line
  {
    assert (line + [CARRIAGE_RETURN])[..|line|] == line;
  }

  /** The line does not fit the scanner's buffer, or it says something that does not decode. */
  predicate Stops(env: Env, line: bytes) {
    |line| >= MAX_TOKEN || (DropCR(line) != [] && env.decode(DropCR(line)).None?)
  }

  predicate StopsFirst(env: Env, lines: seq<bytes>, i: int) {
    0 <= i < |lines| && Stops(env, lines[i]) && forall j :: 0 <= j < i ==> !Stops(env, lines[j])
  }

  /** The records on the lines that are not blank, in order. */
  function RecordsOn(env: Env, lines: seq<bytes>): seq<Execution> {
    if lines == [] then []
    else
      var init, token := RecordsOn(env, lines[..|lines| - 1]), DropCR(lines[|lines| - 1]);
      if token == [] || env.decode(token).None? then init else init + [env.decode(token).value]
  }

  lemma RecordsSnoc(env: Env, lines: seq<bytes>, line: bytes)
    ensures RecordsOn(env, lines + [line]) ==
      if DropCR(line) == [] || env.decode(DropCR(line)).None? then RecordsOn(env, lines)
      else RecordsOn(env, lines) + [env.decode(DropCR(line)).value]
  {
    assert (lines + [line])[..|lines|] == lines;
  }

  lemma ReadLine(env: Env, data: bytes, count: nat, out: seq<Execution>)
    requires data != []
    ensures var line, r := data[..LineLength(data)], ReadFrom(env, data, count, out);
      r == if Stops(env, line) then (if |line| >= MAX_TOKEN then TooLong else BadLine(count + 1))
           else if DropCR(line) == [] || env.decode(DropCR(line)).None? then ReadFrom(env, Rest(data), count + 1, out)
           else ReadFrom(env, Rest(data), count + 1, out + [env.decode(DropCR(line)).value])
  {
    hide DropCR, Rest, LineLength;
  }

  /** r is what a scan of these lines gives: the first that stops it decides, by its number. */
  ghost predicate ScanGives(env: Env, lines: seq<bytes>, r: Read) {
    if exists i :: StopsFirst(env, lines, i) then
      exists i :: StopsFirst(env, lines, i) && r == if |lines[i]| >= MAX_TOKEN then TooLong else BadLine(i + 1)
    else r == ReadOk(RecordsOn(env, lines))
  }

  lemma StopHere(env: Env, before: seq<bytes>, line: bytes, more: seq<bytes>)
    requires (forall i :: 0 <= i < |before| ==> !Stops(env, before[i])) && Stops(env, line)
    ensures ScanGives(env, before + [line] + more, if |line| >= MAX_TOKEN then TooLong else BadLine(|before| + 1))
  {
    hide Stops, RecordsOn;
    var all := before + [line] + more;
    assert all[|before|] == line && forall j :: 0 <= j < |before| ==> all[j] == before[j];
    assert StopsFirst(env, all, |before|);
  }

  lemma ScanNothing(env: Env, before: seq<bytes>)
    requires forall i :: 0 <= i < |before| ==> !Stops(env, before[i])
    ensures ScanGives(env, before + LinesOf([]), ReadFrom(env, [], |before|, RecordsOn(env, before)))
  {
    hide Stops, RecordsOn;
    assert before + LinesOf([]) == before;
  }

  lemma FirstOfLines(data: bytes)
    requires data != []
    ensures LinesOf(data) == [data[..LineLength(data)]] + LinesOf(Rest(data))
  {}

  lemma {:induction false} ScanFrom(env: Env, data: bytes, before: seq<bytes>)
    requires forall i :: 0 <= i < |before| ==> !Stops(env, before[i])
    ensures ScanGives(env, before + LinesOf(data), ReadFrom(env, data, |before|, RecordsOn(env, before)))
    decreases |data|
  {
    hide DropCR, Stops, ReadFrom, RecordsOn, LineLength, ScanGives, LinesOf, Rest;
    if data == [] {
      ScanNothing(env, before);
    } else {
      FirstOfLines(data);
      var line, rest := data[..LineLength(data)], Rest(data);
      assert before + LinesOf(data) == before + [line] + LinesOf(rest);
      ReadLine(env, data, |before|, RecordsOn(env, before));
      if Stops(env, line) {
        StopHere(env, before, line, LinesOf(rest));
      } else {
        RecordsSnoc(env, before, line);
        ScanFrom(env, rest, before + [line]);
      }
    }
  }

  /** ReadAll of any file: the first line that does not fit or does not decode decides, by its number;
      without such a line it is the records on the lines that are not blank, in order. */
  lemma ReadAllExactly(env: Env, file: bytes)
    ensures ScanGives(env, LinesOf(file), ReadFrom(env, file, 0, []))
    ensures ReadFrom(env, file, 0, []).ReadOk? <==>
      forall i :: 0 <= i < |LinesOf(file)| ==> !Stops(env, LinesOf(file)[i])
  {
    hide ReadFrom, LinesOf, Stops, RecordsOn;
    var lines := LinesOf(file);
    ScanFrom(env, file, []);
    assert [] + lines == lines && RecordsOn(env, []) == [] by { NoRecords(env); }
    if k: nat :| k < |lines| && Stops(env, lines[k]) {
      var i := FirstStop(env, lines, k);
    }
  }

  lemma NoRecords(env: Env)
    ensures RecordsOn(env, []) == []
  {}

  lemma {:induction false} FirstStop(env: Env, lines: seq<bytes>, k: nat) returns (i: nat)
    requires k < |lines| && Stops(env, lines[k])
    ensures StopsFirst(env, lines, i)
  {
    hide Stops;
    if j: nat :| j < k && Stops(env, lines[j]) { i := FirstStop(env, lines, j); } else { i := k; }
  }

  // ---------------------------------------------------------------- the round trip

  predicate Fits(env: Env, ex: Execution) {
    env.encode(ex).Some? && |env.encode(ex).value| < MAX_TOKEN
  }

  lemma {:induction false} FirstLineIs(raw: bytes, more: bytes)
    requires NEWLINE !in raw
    ensures var data := raw + [NEWLINE] + more;
      LineLength(data) == |raw| && data[..|raw|] == raw && Rest(data) == more
  {
    var data := raw + [NEWLINE] + more;
    if raw != [] {
      FirstLineIs(raw[1..], more);
      assert data[0] == raw[0] && data[1..] == raw[1..] + [NEWLINE] + more;
    }
    assert data[..|raw|] == raw && data[|raw| + 1..] == more;
  }

  lemma {:induction false} ReadBackFrom(env: Env, records: seq<Execution>, data: bytes, line: nat, out: seq<Execution>)
    requires LawfulCodec(env) && Encodable(env, records) && data == Lines(env, records)
    ensures (forall ex :: ex in records ==> Fits(env, ex)) ==> ReadFrom(env, data, line, out) == ReadOk(out + records)
    ensures (exists ex :: ex in records && !Fits(env, ex)) ==> ReadFrom(env, data, line, out) == TooLong
    decreases |records|
  {
    if records == [] {
      assert out + records == out;
    } else {
      var first, rest := records[0], records[1..];
      LinesCons(env, records);
      var more := Lines(env, rest);
      FirstLineIs(env.encode(first).value, more);
      assert records == [first] + rest;
      if Fits(env, first) {
        ReadBackFrom(env, rest, more, line + 1, out + [first]);
        assert out + [first] + rest == out + records;
      }
    }
  }

  lemma {:induction false} LinesCons(env: Env, records: seq<Execution>)
    requires Encodable(env, records) && records != []
    ensures Lines(env, records) == Line(env, records[0]) + Lines(env, records[1..])
  {
    if |records| > 1 {
      var init := records[..|records| - 1];
      LinesCons(env, init);
      assert records[1..][..|records| - 2] == init[1..];
    }
  }

  lemma ReadBack(env: Env, records: seq<Execution>)
    requires LawfulCodec(env) && Encodable(env, records)
    ensures ReadFrom(env, Lines(env, records), 0, []) == ReadOk(records) <==>
      forall ex :: ex in records ==> Fits(env, ex)
  {
    hide ReadFrom, LawfulCodec, Fits, Lines;
    ReadBackFrom(env, records, Lines(env, records), 0, []);
    assert [] + records == records;
  }

  /** Round trip: from an empty file, ReadAll returns the accepted executions in order, exactly
      when every one of their lines fits the scanner's buffer. */
  lemma ReadBackRoundTrip(env: Env, attempts: seq<Attempt>)
    requires LawfulCodec(env) && !After(env, State([], false), attempts).poisoned
    ensures var accepted := Accepted(env, State([], false), attempts);
      ReadFrom(env, After(env, State([], false), attempts).file, 0, []) == ReadOk(accepted) <==>
      forall ex :: ex in accepted ==> Fits(env, ex)
  {
    hide ReadFrom, LawfulCodec, Fits, Lines, After, Accepted;
    var accepted := Accepted(env, State([], false), attempts);
    FileIsAcceptedLines(env, State([], false), attempts);
    assert [] + Lines(env, accepted) == Lines(env, accepted);
    ReadBack(env, accepted);
  }
}
