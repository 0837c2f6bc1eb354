/** The wire format of the order-status stream: the JSON text of the two payloads the server
    writes, the `data: <json>\n\n` frame around it, and the interpretation of a `text/event-stream`
    body that section 9.2 of the WHATWG HTML Living Standard (Server-sent events) prescribes, so
    that the frames can be shown to dispatch exactly the JSON texts that were written. */
module EventStream {
  import opened Wrappers
  import opened Text
  import opened Records

  /** The `statusData` object of sendStatusUpdate. */
  datatype Snapshot = Snapshot(
    orderId: string,
    status: string,
    carrier: Option<string>,
    trackingNumber: Option<string>,
    estimatedDelivery: Option<Date>,
    timestamp: Date)

  /** What a frame carries: `{ error }` or a status snapshot. */
  datatype Payload = ErrorPayload(error: string) | SnapshotPayload(snapshot: Snapshot)

  /** Neither a line feed nor a carriage return occurs in `s`. */
  predicate NoLineBreak(s: string) {
    '\n' !in s && '\r' !in s
  }

  function PaddedNum(n: nat, width: nat): (r: string)
    ensures NoLineBreak(r)
  {
    var r := Padded(n, width);
    assert forall i :: 0 <= i < |r| ==> IsDigit(r[i]);
    r
  }

  // ---------------------------------------------------------------------------
  // Dates: Date.prototype.toISOString

  /** Year, month and day of a day count since 1970-01-01, in the proleptic Gregorian calendar
      (H. Hinnant's civil-from-days algorithm). Every component it computes is non-negative; `AsNat`
      only hands them on as natural numbers. */
  function CivilFromDays(days: nat): (nat, nat, nat) {
    var z := days + 719468;
    var era := z / 146097;
    var doe := z - era * 146097;
    var yoe := (doe - doe / 1460 + doe / 36524 - doe / 146096) / 365;
    var doy := doe - (365 * yoe + yoe / 4 - yoe / 100);
    var mp := (5 * doy + 2) / 153;
    var d := doy - (153 * mp + 2) / 5 + 1;
    var m := if mp < 10 then mp + 3 else mp - 9;
    var y := yoe + era * 400 + (if m <= 2 then 1 else 0);
    (AsNat(y), AsNat(m), AsNat(d))
  }

  function AsNat(x: int): nat { if x < 0 then 0 else x }

  /** `toISOString` writes years 0..9999 with four digits and later years as `+` and six digits. */
  function YearString(y: nat): (r: string)
    ensures NoLineBreak(r)
  {
    if y <= 9999 then PaddedNum(y, 4) else "+" + PaddedNum(y, 6)
  }

  /** `new Date(ms).toISOString()`, e.g. `1970-01-01T00:00:00.000Z` for 0. */
  function IsoString(ms: Date): (r: string)
    ensures NoLineBreak(r)
  {
    var (y, m, d) := CivilFromDays(ms / 86400000);
    DateString(y, m, d) + "T" + TimeString(ms % 86400000) + "Z"
  }

  /** `YYYY-MM-DD` */
  function DateString(y: nat, m: nat, d: nat): (r: string)
    ensures NoLineBreak(r)
  {
    YearString(y) + "-" + PaddedNum(m, 2) + "-" + PaddedNum(d, 2)
  }

  /** `hh:mm:ss.sss` of the milliseconds `t` into the day. */
  function TimeString(t: nat): (r: string)
    ensures NoLineBreak(r)
  {
    PaddedNum(t / 3600000, 2) + ":" + PaddedNum(t / 60000 % 60, 2) + ":" + PaddedNum(t / 1000 % 60, 2)
    + "." + PaddedNum(t % 1000, 3)
  }

  // ---------------------------------------------------------------------------
  // JSON.stringify of the two payloads

  function HexDigit(d: nat): char
    requires d < 16
  {
    if d < 10 then DigitChar(d) else ('a' as int + d - 10) as char
  }

  /** How JSON.stringify writes one character inside a string literal. */
  function EscapeChar(c: char): (r: string)
    ensures NoLineBreak(r)
  {
    if c == '"' then "\\\""
    else if c == '\\' then "\\\\"
    else if c == '\U{0008}' then "\\b"
    else if c == '\t' then "\\t"
    else if c == '\n' then "\\n"
    else if c == '\U{000C}' then "\\f"
    else if c == '\r' then "\\r"
    else if c < ' ' then "\\u00" + [HexDigit(c as int / 16), HexDigit(c as int % 16)]
    else [c]
  }

  function Escape(s: string): (r: string)
    ensures NoLineBreak(r)
  {
    if s == [] then []
    else EscapeChar(s[0]) + Escape(s[1..])
  }

  /** A character JSON.stringify writes as itself. */
  predicate PlainChar(c: char) { c >= ' ' && c != '"' && c != '\\' }

  /** A string without quotes, backslashes or control characters is written unchanged. */
  lemma {:induction false} EscapePlain(s: string)
    requires forall i :: 0 <= i < |s| ==> PlainChar(s[i])
    ensures Escape(s) == s
  {
    if s != [] {
      EscapePlain(s[1..]);
    }
  }

  /** JSON.stringify of a string. */
  function Quote(s: string): (r: string)
    ensures NoLineBreak(r)
  {
    "\"" + Escape(s) + "\""
  }

  /** `,"key":value`, or nothing when the property is `undefined` (JSON.stringify omits it). */
  function OptionalMember(key: string, value: Option<string>): (r: string)
    requires NoLineBreak(key)
    ensures NoLineBreak(r)
  {
    match value
    case None => []
    case Some(v) => ",\"" + key + "\":" + Quote(v)
  }

  function OptionalDate(d: Option<Date>): Option<string> {
    match d
    case None => None
    case Some(ms) => Some(IsoString(ms))
  }

  /** JSON.stringify of a snapshot: the properties in the order the object literal lists them,
      `undefined` ones left out. */
  function SnapshotJson(s: Snapshot): (r: string)
    ensures NoLineBreak(r)
  {
    SnapshotHead(s) + SnapshotOptionals(s) + SnapshotTail(IsoString(s.timestamp))
  }

  /** `,"timestamp":…}` */
  function SnapshotTail(timestamp: string): (r: string)
    ensures NoLineBreak(r)
  {
    ",\"timestamp\":" + Quote(timestamp) + "}"
  }

  /** `{"orderId":…,"status":…` */
  function SnapshotHead(s: Snapshot): (r: string)
    ensures NoLineBreak(r)
  {
    "{\"orderId\":" + Quote(s.orderId) + ",\"status\":" + Quote(s.status)
  }

  /** The three optional properties, each present only when defined. */
  function SnapshotOptionals(s: Snapshot): (r: string)
    ensures NoLineBreak(r)
  {
    var c := OptionalMember("carrier", s.carrier);
    var d := OptionalMember("trackingNumber", s.trackingNumber);
    c + d + OptionalMember("estimatedDelivery", OptionalDate(s.estimatedDelivery))
  }

  /** The JSON text of a payload. */
  function Json(p: Payload): (r: string)
    ensures NoLineBreak(r)
  {
    match p
    case ErrorPayload(e) => "{\"error\":" + Quote(e) + "}"
    case SnapshotPayload(s) => SnapshotJson(s)
  }

  /** An error message without characters that need escaping appears verbatim. */
  lemma PlainErrorJson(e: string)
    requires forall i :: 0 <= i < |e| ==> PlainChar(e[i])
    ensures Json(ErrorPayload(e)) == "{\"error\":\"" + e + "\"}"
  {
    EscapePlain(e);
    assert Quote(e) == "\"" + e + "\"";
    assert Json(ErrorPayload(e)) == "{\"error\":" + Quote(e) + "}";
  }

  /** The frame `res.write` sends: `data: ${JSON.stringify(payload)}\n\n`. It is a single `data`
      line whose value is the JSON text, ended by exactly one blank line: no line break occurs
      before the final two. */
  function Frame(p: Payload): (r: string)
    ensures |r| >= 8 && r[..6] == "data: " && r[|r| - 2..] == "\n\n"
    ensures NoLineBreak(r[..|r| - 2])
    ensures r[6..|r| - 2] == Json(p)
  {
    var r := "data: " + Json(p) + "\n\n";
    assert r[..|r| - 2] == "data: " + Json(p);
    r
  }

  /** The body a response accumulates from a sequence of frames. */
  function Body(ps: seq<Payload>): string {
    if ps == [] then [] else Frame(ps[0]) + Body(ps[1..])
  }

  function JsonTexts(ps: seq<Payload>): (r: seq<string>)
    ensures |r| == |ps| && forall k :: 0 <= k < |ps| ==> r[k] == Json(ps[k])
  {
    if ps == [] then [] else [Json(ps[0])] + JsonTexts(ps[1..])
  }

  // ---------------------------------------------------------------------------
  // Interpreting an event stream (WHATWG HTML, section 9.2.6)

  /** Processes one non-empty line against the data buffer: a line starting with a colon is a
      comment; otherwise the field name runs up to the first colon and the value follows it, less
      one leading space; a line without a colon is a field name with an empty value. Only the `data`
      field is modelled: it appends the value and a line feed to the buffer. The `event`, `id` and
      `retry` fields, which the order stream never sends, are ignored here. */
  function ProcessLine(line: string, data: string): string {
    if line != [] && line[0] == ':' then data
    else
      var (field, value) :=
        match IndexOf(line, ":")
        case None => (line, "")
        case Some(i) =>
          var v := line[i + 1..];
          (line[..i], if v != [] && v[0] == ' ' then v[1..] else v);
      if field == "data" then data + value + "\n" else data
  }

  /** The data of the events dispatched while reading `s`, given the line read so far and the
      current data buffer. Lines end at CRLF, LF or CR. A blank line dispatches the buffer (less
      its final line feed) unless the buffer is empty; an event still open when the stream ends
      is discarded. */
  function Parse(s: string, line: string, data: string): seq<string>
    decreases |s|
  {
    if s == [] then []
    else if s[0] == '\n' || s[0] == '\r' then
      var rest := if s[0] == '\r' && |s| > 1 && s[1] == '\n' then s[2..] else s[1..];
      if line == [] then
        (if data == [] then [] else [data[..|data| - 1]]) + Parse(rest, [], [])
      else Parse(rest, [], ProcessLine(line, data))
    else Parse(s[1..], line + [s[0]], data)
  }

  /** The data of every `message` event a fresh EventSource dispatches for a response body. */
  function Events(body: string): seq<string> {
    Parse(body, [], [])
  }

  /** Characters without line breaks only extend the current line. */
  lemma {:induction false} ParseAccumulates(x: string, rest: string, line: string, data: string)
    requires NoLineBreak(x)
    ensures Parse(x + rest, line, data) == Parse(rest, line + x, data)
    decreases |x|
  {
    if x == [] {
      assert x + rest == rest;
      assert line + x == line;
    } else {
      assert (x + rest)[0] == x[0];
      assert (x + rest)[1..] == x[1..] + rest;
      ParseAccumulates(x[1..], rest, line + [x[0]], data);
      assert line + [x[0]] + x[1..] == line + x;
    }
  }

  lemma DataLine(j: string)
    ensures ProcessLine("data: " + j, []) == j + "\n"
  {
    var line := "data: " + j;
    assert line[0] == 'd' && line[1] == 'a' && line[2] == 't' && line[3] == 'a' && line[4] == ':' && line[5] == ' ';
    IndexOfChar(line, ':', 4);
    assert line[..4] == "data";
    DataFieldLine(line, 4, []);
    assert line[6..] == j;
  }

  /** A `data` line whose colon is followed by a space appends what follows the space. */
  lemma DataFieldLine(line: string, i: nat, data: string)
    requires i + 1 < |line| && line[0] != ':' && line[i + 1] == ' '
    requires IndexOf(line, [':']) == Some(i) && line[..i] == "data"
    ensures ProcessLine(line, data) == data + line[i + 2..] + "\n"
  {
    assert ":" == [':'];
    var v := line[i + 1..];
    assert v[0] == ' ' && v[1..] == line[i + 2..];
  }

  /** A frame dispatches exactly one message event, whose data is the JSON text it carries,
      and leaves the parser ready for the next frame. */
  lemma FrameDispatches(p: Payload, rest: string)
    ensures Parse(Frame(p) + rest, [], []) == [Json(p)] + Parse(rest, [], [])
  {
    var j := Json(p);
    assert Frame(p) + rest == "data: " + j + ("\n\n" + rest);
    DataFrameDispatches(j, rest);
  }

  /** The same for any data text without line breaks. */
  lemma DataFrameDispatches(j: string, rest: string)
    requires NoLineBreak(j)
    ensures Parse("data: " + j + ("\n\n" + rest), [], []) == [j] + Parse(rest, [], [])
  {
    var line := "data: " + j;
    assert NoLineBreak(line);
    ParseAccumulates(line, "\n\n" + rest, [], []);
    assert [] + line == line;
    DataLine(j);
    BlankLineDispatches(line, j + "\n", rest);
  }

  /** The line feed that ends a non-empty line, then a blank line, dispatch what that line adds
      to an empty buffer. */
  lemma BlankLineDispatches(line: string, data: string, rest: string)
    requires line != [] && ProcessLine(line, []) == data && data != []
    ensures Parse("\n\n" + rest, line, []) == [data[..|data| - 1]] + Parse(rest, [], [])
  {
    var tail := "\n\n" + rest;
    assert tail[0] == '\n' && tail[1..] == "\n" + rest;
    var tail2 := "\n" + rest;
    assert tail2[0] == '\n' && tail2[1..] == rest;
  }

  /** Round trip of the wire format: the events a client dispatches from a response body are the
      JSON texts of the payloads the server wrote to it, in order. */
  lemma {:induction false} BodyDispatches(ps: seq<Payload>)
    ensures Events(Body(ps)) == JsonTexts(ps)
  {
    if ps != [] {
      FrameDispatches(ps[0], Body(ps[1..]));
      BodyDispatches(ps[1..]);
    }
  }
}
