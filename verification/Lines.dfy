/** The two streaming decoders of the LLM providers. Both cut the byte stream at
    line feeds and read each complete line; they differ in how a line is read. */
module Lines {
  import opened Chunks
  import opened Ints
  import opened Options
  import opened Text

  const LF: u8 := 10

  /** What one complete line contributes; Stop ends the stream after its token. */
  datatype Reading = Skip | Token(text: string) | Stop(last: Option<string>)

  type Reader = Bytes -> Reading

  // ----- How each provider reads a line -----

  /** Ollama: one JSON object a line. parse is the JSON library's answer:
      message content and the done flag. */
  function ReadNdjson(parse: Bytes -> Option<(string, bool)>, line: Bytes): Reading {
    if line == [] then Skip
    else
      match parse(line)
      case None => Skip
      case Some((content, done)) =>
        if done then Stop(if content == "" then None else Some(content))
        else if content == "" then Skip
        else Token(content)
  }

  /** OpenAI-compatible server-sent events: only data fields matter. decode is
      lossy UTF-8 decoding, delta the content of a data payload. */
  function ReadSse(u: Unicode, decode: Bytes -> string, delta: string -> Option<string>, line: Bytes): Reading {
    var text := Trim(u, decode(line));
    if !("data:" <= text) then Skip
    else
      var data := Trim(u, text[|"data:"|..]);
      if data == "[DONE]" then Stop(None)
      else match delta(data) case None => Skip case Some(t) => Token(t)
  }

  function NdjsonReader(parse: Bytes -> Option<(string, bool)>): Reader {
    (line: Bytes) => ReadNdjson(parse, line)
  }

  function SseReader(u: Unicode, decode: Bytes -> string, delta: string -> Option<string>): Reader {
    (line: Bytes) => ReadSse(u, decode, delta, line)
  }

  // ----- The whole body in one pass -----

  function LineFeedAt(bytes: Bytes): (k: nat)
    ensures k <= |bytes| && forall i :: 0 <= i < k ==> bytes[i] != LF
    ensures k < |bytes| ==> bytes[k] == LF
  {
    if bytes == [] || bytes[0] == LF then 0 else 1 + LineFeedAt(bytes[1..])
  }

  /** The complete lines of a body; an unterminated tail is not one. */
  function LinesOf(bytes: Bytes): seq<Bytes>
    decreases |bytes|
  {
    var k := LineFeedAt(bytes);
    if k == |bytes| then [] else [bytes[..k]] + LinesOf(bytes[k + 1..])
  }

  datatype End = Exhausted | Marker | TransportError

  function Given(last: Option<string>): seq<string> {
    if last.None? then [] else [last.value]
  }

  function Read(reader: Reader, lines: seq<Bytes>): (seq<string>, bool)
    decreases |lines|
  {
    if lines == [] then ([], false)
    else
      match reader(lines[0])
      case Skip => Read(reader, lines[1..])
      case Token(t) => var (ts, stopped) := Read(reader, lines[1..]); ([t] + ts, stopped)
      case Stop(last) => (Given(last), true)
  }

  function DecodeBody(reader: Reader, bytes: Bytes, broken: bool): (seq<string>, End) {
    var (tokens, stopped) := Read(reader, LinesOf(bytes));
    (tokens, if stopped then Marker else if broken then TransportError else Exhausted)
  }

  /** A line feed found in buf is found at the same place in anything longer. */
  lemma {:induction false} FeedStays(buf: Bytes, rest: Bytes)
    requires LineFeedAt(buf) < |buf|
    ensures LineFeedAt(buf + rest) == LineFeedAt(buf)
  {
    if buf[0] != LF {
      FeedStays(buf[1..], rest);
      assert (buf + rest)[1..] == buf[1..] + rest;
    }
  }

  lemma CutAfter(buf: Bytes, rest: Bytes, k: nat)
    requires k < |buf|
    ensures (buf + rest)[..k] == buf[..k] && (buf + rest)[k + 1..] == buf[k + 1..] + rest
  {
  }

  lemma FirstLineOf(buf: Bytes, rest: Bytes)
    requires LineFeedAt(buf) < |buf|
    ensures LinesOf(buf + rest) == [buf[..LineFeedAt(buf)]] + LinesOf(buf[LineFeedAt(buf) + 1..] + rest)
  {
    FeedStays(buf, rest);
    CutAfter(buf, rest, LineFeedAt(buf));
  }

  /** Reading all lines amounts to the tokens so far followed by reading the rest. */
  ghost predicate StillToRead(reader: Reader, all: seq<Bytes>, tokens: seq<string>, rest: seq<Bytes>) {
    Read(reader, all) == (tokens + Read(reader, rest).0, Read(reader, rest).1)
  }

  lemma ReadFirst(reader: Reader, all: seq<Bytes>, tokens: seq<string>, rest: seq<Bytes>)
    requires rest != [] && StillToRead(reader, all, tokens, rest)
    ensures reader(rest[0]).Skip? ==> StillToRead(reader, all, tokens, rest[1..])
    ensures reader(rest[0]).Token? ==> StillToRead(reader, all, tokens + [reader(rest[0]).text], rest[1..])
    ensures reader(rest[0]).Stop? ==> Read(reader, all) == (tokens + Given(reader(rest[0]).last), true)
  {
    var first := reader(rest[0]);
    if first.Token? {
      var later := Read(reader, rest[1..]).0;
      assert tokens + ([first.text] + later) == tokens + [first.text] + later;
    }
  }

  /** The decode loop: a growing buffer, drained line by line. However the body is
      cut into chunks, and whether or not the transport breaks at the end, the
      tokens are those of one pass over the joined body. */
  method DecodeChunks(reader: Reader, chunks: seq<Bytes>, broken: bool) returns (tokens: seq<string>, end: End)
    ensures (tokens, end) == DecodeBody(reader, Joined(chunks), broken)
  {
    tokens := [];
    var buf: Bytes := [];
    ghost var all := Joined(chunks);
    assert chunks[0..] == chunks && buf + all == all;
    assert [] + Read(reader, LinesOf(all)).0 == Read(reader, LinesOf(all)).0;
    for i := 0 to |chunks|
      invariant LineFeedAt(buf) == |buf|
      invariant StillToRead(reader, LinesOf(all), tokens, LinesOf(buf + Joined(chunks[i..])))
    {
      ghost var rest := Joined(chunks[i + 1..]);
      assert chunks[i..][1..] == chunks[i + 1..];
      JoinedFirst(chunks[i..]);
      assert buf + Joined(chunks[i..]) == (buf + chunks[i]) + rest;
      buf := buf + chunks[i];
      var nl := LineFeedAt(buf);
      while nl < |buf|
        invariant nl == LineFeedAt(buf)
        invariant StillToRead(reader, LinesOf(all), tokens, LinesOf(buf + rest))
        decreases |buf|
      {
        var line := buf[..nl];
        FirstLineOf(buf, rest);
        ReadFirst(reader, LinesOf(all), tokens, LinesOf(buf + rest));
        buf := buf[nl + 1..];
        match reader(line) {
          case Skip =>
          case Token(t) => tokens := tokens + [t];
          case Stop(last) =>
            return tokens + Given(last), Marker;
        }
        nl := LineFeedAt(buf);
      }
    }
    assert buf + Joined(chunks[|chunks|..]) == buf;
    assert tokens + [] == tokens;
    end := if broken then TransportError else Exhausted;
  }

  method DecodeNdjsonTokens(parse: Bytes -> Option<(string, bool)>, chunks: seq<Bytes>, broken: bool)
    returns (tokens: seq<string>, end: End)
    ensures (tokens, end) == DecodeBody(NdjsonReader(parse), Joined(chunks), broken)
  {
    tokens, end := DecodeChunks(NdjsonReader(parse), chunks, broken);
  }

  method DecodeSseTokens(u: Unicode, decode: Bytes -> string, delta: string -> Option<string>,
                         chunks: seq<Bytes>, broken: bool)
    returns (tokens: seq<string>, end: End)
    ensures (tokens, end) == DecodeBody(SseReader(u, decode, delta), Joined(chunks), broken)
  {
    tokens, end := DecodeChunks(SseReader(u, decode, delta), chunks, broken);
  }

  // ----- Line cutting undoes line writing -----

  function Written(lines: seq<Bytes>): Bytes {
    if lines == [] then [] else lines[0] + [10] + Written(lines[1..])
  }

  lemma CutLine(line: Bytes)
    requires LF !in line
    ensures LineFeedAt(line + [LF]) == |line|
    ensures (line + [LF])[..|line|] == line && (line + [LF])[|line| + 1..] == []
  {
    assert (line + [LF])[|line|] == LF;
  }

  lemma OneLine(line: Bytes, rest: Bytes)
    requires LF !in line
    ensures LinesOf(line + [LF] + rest) == [line] + LinesOf(rest)
  {
    var first := line + [LF];
    CutLine(line);
    FirstLineOf(first, rest);
    assert [] + rest == rest;
  }

  /** Any lines without line feeds, written out with an unterminated tail, are
      exactly the complete lines of the result. */
  lemma {:induction false} LinesRoundTrip(lines: seq<Bytes>, tail: Bytes)
    requires LF !in tail && forall i :: 0 <= i < |lines| ==> LF !in lines[i]
    ensures LinesOf(Written(lines) + tail) == lines
    decreases |lines|
  {
    if lines == [] {
      assert Written(lines) + tail == tail;
    } else {
      var rest := Written(lines[1..]) + tail;
      assert Written(lines) + tail == lines[0] + [LF] + rest;
      OneLine(lines[0], rest);
      LinesRoundTrip(lines[1..], tail);
    }
  }
}
