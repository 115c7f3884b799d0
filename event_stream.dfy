/** The text/event-stream frames the server writes, and how a client reads them back
    (section 9.2.6 of the WHATWG HTML Living Standard, "Interpreting an event stream",
    restricted to LF line endings and to the `data` field). */
module EventStream {
  import opened Common

  /** The frame written when a client subscribes. Its field name `log` is not one the
      standard knows, so a client ignores the line and dispatches nothing for it. */
  const ConnectedFrame: string := "log:" + ConnectedNotice + "\n\n"

  const ConnectedNotice: string := "Connected to server side Event stream"

  /** One pushed event: a `data` line carrying the payload, then a blank line. */
  function DataFrame(payload: string): string {
    "data: " + payload + "\n\n"
  }

  /** The payload fits on one line, as JSON text produced without indentation does. */
  predicate SingleLine(s: string) {
    '\n' !in s && '\r' !in s
  }

  /** The data frames of `payloads`, in order. */
  function DataFrames(payloads: seq<string>): (r: seq<string>)
    ensures |r| == |payloads|
    decreases |payloads|
  {
    if payloads == [] then [] else [DataFrame(payloads[0])] + DataFrames(payloads[1..])
  }

  lemma {:induction false} DataFramesAppend(payloads: seq<string>, p: string)
    ensures DataFrames(payloads + [p]) == DataFrames(payloads) + [DataFrame(p)]
    decreases |payloads|
  {
    if payloads != [] {
      assert (payloads + [p])[1..] == payloads[1..] + [p];
      DataFramesAppend(payloads[1..], p);
    } else {
      assert payloads + [p] == [p];
    }
  }

  /** Position of the first LF in `s`, or `|s|` when there is none. */
  function LineEnd(s: string): (i: nat)
    ensures i <= |s|
    ensures '\n' !in s[..i]
    ensures i < |s| ==> s[i] == '\n'
    decreases |s|
  {
    if s == [] || s[0] == '\n' then 0 else 1 + LineEnd(s[1..])
  }

  /** Position of the first `:` in `line`, or `|line|` when there is none. */
  function ColonAt(line: string): (i: nat)
    ensures i <= |line|
    ensures ':' !in line[..i]
    ensures i < |line| ==> line[i] == ':'
    decreases |line|
  {
    if line == [] || line[0] == ':' then 0 else 1 + ColonAt(line[1..])
  }

  /** Drops one leading space, as the standard does for a field's value. */
  function DropLeadingSpace(s: string): string {
    if s != [] && s[0] == ' ' then s[1..] else s
  }

  /** The data buffer after processing one non-empty line: a comment (leading `:`) and any
      field other than `data` leave it alone; `data` appends the value and an LF. */
  function ProcessLine(line: string, data: string): (r: string)
    requires line != []
    ensures |data| <= |r| && r[..|data|] == data
    ensures line[0] == ':' ==> r == data
  {
    if line[0] == ':' then data
    else
      var c := ColonAt(line);
      var field := line[..c];
      var value := if c < |line| then DropLeadingSpace(line[c + 1..]) else "";
      if field == "data" then data + value + "\n" else data
  }

  /** The events dispatched while reading `s` with data buffer `data`. A blank line dispatches
      the buffer (without its final LF) unless it is empty; text after the last LF is an
      unfinished line and dispatches nothing yet. */
  function Parse(s: string, data: string): (r: seq<string>)
    ensures '\n' !in s ==> r == []
    ensures |r| <= |s|
    decreases |s|
  {
    var i := LineEnd(s);
    if i == |s| then []
    else
      var line := s[..i];
      var rest := s[i + 1..];
      if line == [] then
        (if data == "" then [] else [data[..|data| - 1]]) + Parse(rest, "")
      else Parse(rest, ProcessLine(line, data))
  }

  /** The events a client dispatches for a whole stream. */
  function Events(stream: string): seq<string> {
    Parse(stream, "")
  }

  /** Splitting `line + LF + rest` at its first LF gives back `line` and `rest`. */
  lemma {:induction false} SplitFirstLine(line: string, rest: string)
    requires '\n' !in line
    ensures LineEnd(line + "\n" + rest) == |line|
    ensures (line + "\n" + rest)[..|line|] == line
    ensures (line + "\n" + rest)[|line| + 1..] == rest
    decreases |line|
  {
    var s := line + "\n" + rest;
    assert s[..|line|] == line;
    if line != [] {
      assert s[0] == line[0] && s[1..] == line[1..] + "\n" + rest;
      SplitFirstLine(line[1..], rest);
    }
  }

  /** The first colon of a line is the one at `k` when none comes before it. */
  lemma ColonAtIs(line: string, k: nat)
    requires k < |line| && line[k] == ':' && ':' !in line[..k]
    ensures ColonAt(line) == k
  {
  }

  /** A complete non-empty line is processed into the data buffer before the rest is read. */
  lemma ParseLine(line: string, rest: string, data: string)
    requires line != [] && '\n' !in line
    ensures Parse(line + "\n" + rest, data) == Parse(rest, ProcessLine(line, data))
  {
    SplitFirstLine(line, rest);
  }

  /** A blank line dispatches the buffer, when it holds anything, and empties it. */
  lemma ParseBlank(rest: string, data: string)
    ensures Parse("\n" + rest, data) == (if data == "" then [] else [data[..|data| - 1]]) + Parse(rest, "")
  {
    assert "\n" + rest == [] + "\n" + rest;
    SplitFirstLine([], rest);
  }

  /** The subscription frame's line names the field `log` and leaves the buffer empty. */
  lemma ConnectedLineIgnored()
    ensures '\n' !in "log:" + ConnectedNotice
    ensures ProcessLine("log:" + ConnectedNotice, "") == ""
  {
    var line := "log:" + ConnectedNotice;
    assert line[..3] == "log";
    ColonAtIs(line, 3);
  }

  /** The subscription frame dispatches no event. */
  lemma ConnectedFrameIsSilent(rest: string)
    ensures Parse(ConnectedFrame + rest, "") == Parse(rest, "")
  {
    var line := "log:" + ConnectedNotice;
    assert ConnectedFrame + rest == line + "\n" + ("\n" + rest);
    ConnectedLineIgnored();
    ParseLine(line, "\n" + rest, "");
    ParseBlank(rest, "");
  }

  /** A data line of a one-line payload puts the payload and an LF into an empty buffer. */
  lemma DataLineBuffers(payload: string)
    requires SingleLine(payload)
    ensures '\n' !in "data: " + payload
    ensures ProcessLine("data: " + payload, "") == payload + "\n"
  {
    var line := "data: " + payload;
    assert '\n' !in line by {
      forall k | 0 <= k < |line| ensures line[k] != '\n' {
        if k >= 6 {
          assert line[k] == payload[k - 6];
        }
      }
    }
    assert line[..4] == "data";
    ColonAtIs(line, 4);
    assert line[5..] == " " + payload;
  }

  /** A data frame dispatches exactly its payload. */
  lemma DataFrameDispatches(payload: string, rest: string)
    requires SingleLine(payload)
    ensures Parse(DataFrame(payload) + rest, "") == [payload] + Parse(rest, "")
  {
    var line := "data: " + payload;
    assert DataFrame(payload) + rest == line + "\n" + ("\n" + rest);
    DataLineBuffers(payload);
    ParseLine(line, "\n" + rest, "");
    var data := payload + "\n";
    ParseBlank(rest, data);
    assert data[..|data| - 1] == payload;
  }

  lemma {:induction false} DataFramesDispatch(payloads: seq<string>)
    requires forall k :: 0 <= k < |payloads| ==> SingleLine(payloads[k])
    ensures Events(Concat(DataFrames(payloads))) == payloads
    decreases |payloads|
  {
    if payloads != [] {
      DataFramesDispatch(payloads[1..]);
      DataFrameDispatches(payloads[0], Concat(DataFrames(payloads[1..])));
    }
  }

  /** What a subscriber's handle has received after `payloads` were pushed to it. */
  function Stream(payloads: seq<string>): string {
    Concat([ConnectedFrame] + DataFrames(payloads))
  }

  /** A client whose stream is the subscription frame followed by the data frames of
      `payloads` dispatches exactly `payloads`, in order, one event each. */
  lemma ClientReceives(payloads: seq<string>)
    requires forall k :: 0 <= k < |payloads| ==> SingleLine(payloads[k])
    ensures Events(Stream(payloads)) == payloads
  {
    var tail := Concat(DataFrames(payloads));
    var frames := [ConnectedFrame] + DataFrames(payloads);
    assert frames[0] == ConnectedFrame && frames[1..] == DataFrames(payloads);
    assert Stream(payloads) == ConnectedFrame + tail;
    ConnectedFrameIsSilent(tail);
    DataFramesDispatch(payloads);
  }
}
