/** What the streaming decoders yield for the bodies the providers write. */
module Bodies {
  import opened Chunks
  import opened Lines
  import opened Options
  import opened Text

  predicate NoFeeds(lines: seq<Bytes>) {
    forall i :: 0 <= i < |lines| ==> LF !in lines[i]
  }

  /** What the lines contribute, if none of them stops the stream. */
  function Tokens(reader: Reader, lines: seq<Bytes>): seq<string> {
    if lines == [] then []
    else (match reader(lines[0]) case Token(t) => [t] case _ => []) + Tokens(reader, lines[1..])
  }

  predicate GoesOn(reader: Reader, lines: seq<Bytes>) {
    forall k :: 0 <= k < |lines| ==> !reader(lines[k]).Stop?
  }

  lemma {:induction false} ReadThrough(reader: Reader, lines: seq<Bytes>, more: seq<Bytes>)
    requires GoesOn(reader, lines)
    ensures Read(reader, lines + more) == (Tokens(reader, lines) + Read(reader, more).0, Read(reader, more).1)
    decreases |lines|
  {
    if lines == [] {
      assert lines + more == more && [] + Read(reader, more).0 == Read(reader, more).0;
    } else {
      ReadThrough(reader, lines[1..], more);
      assert (lines + more)[1..] == lines[1..] + more && (lines + more)[0] == lines[0];
      var later, rest := Tokens(reader, lines[1..]), Read(reader, more).0;
      if reader(lines[0]).Token? {
        assert [reader(lines[0]).text] + (later + rest) == [reader(lines[0]).text] + later + rest;
      } else {
        assert [] + later == later;
      }
    }
  }

  /** A body of lines that go on, and one that a stopping line ends, whatever follows. */
  lemma BodyRead(reader: Reader, lines: seq<Bytes>, tail: Bytes, broken: bool)
    requires GoesOn(reader, lines) && NoFeeds(lines) && LF !in tail
    ensures DecodeBody(reader, Written(lines) + tail, broken) ==
            (Tokens(reader, lines), if broken then TransportError else Exhausted)
  {
    LinesRoundTrip(lines, tail);
    ReadThrough(reader, lines, []);
    assert lines + [] == lines && Tokens(reader, lines) + [] == Tokens(reader, lines);
  }

  lemma BodyStopped(reader: Reader, lines: seq<Bytes>, last: Bytes, rest: seq<Bytes>, tail: Bytes, broken: bool)
    requires GoesOn(reader, lines) && reader(last).Stop? && NoFeeds(lines + ([last] + rest)) && LF !in tail
    ensures DecodeBody(reader, Written(lines + ([last] + rest)) + tail, broken) ==
            (Tokens(reader, lines) + Given(reader(last).last), Marker)
  {
    LinesRoundTrip(lines + ([last] + rest), tail);
    ReadThrough(reader, lines, [last] + rest);
  }

  // ----- Server-sent events -----

  predicate Padded(u: Unicode, text: string, lead: string, gap: string, data: string, trail: string) {
    AllSpace(u, lead) && AllSpace(u, gap) && AllSpace(u, trail) && text == lead + "data:" + gap + data + trail
  }

  /** The line is a data field with this payload, whatever white space is around either. */
  ghost predicate Carries(u: Unicode, decode: Bytes -> string, line: Bytes, data: string) {
    IsTrimmed(u, data) && exists lead, gap, trail :: Padded(u, decode(line), lead, gap, data, trail)
  }

  /** The letters of a field name are not white space. */
  predicate Sane(u: Unicode) {
    !u.isSpace('d') && !u.isSpace(':')
  }

  lemma PaddedField(u: Unicode, text: string, lead: string, gap: string, data: string, trail: string)
    requires Padded(u, text, lead, gap, data, trail) && IsTrimmed(u, data) && Sane(u)
    ensures "data:" <= Trim(u, text) && Trim(u, Trim(u, text)[5..]) == data
  {
    if data == "" {
      assert text == lead + "data:" + (gap + trail);
      TrimOfPadded(u, lead, "data:", gap + trail);
      assert "data:"[5..] == "";
    } else {
      var field := "data:" + gap + data;
      assert text == lead + field + trail;
      assert field[0] == 'd' && field[|field| - 1] == data[|data| - 1];
      TrimOfPadded(u, lead, field, trail);
      assert field[5..] == gap + data + "";
      TrimOfPadded(u, gap, data, "");
    }
  }

  /** A data field's token is its payload's content; the payload [DONE] ends the stream. */
  lemma DataLineReads(u: Unicode, decode: Bytes -> string, delta: string -> Option<string>, line: Bytes, data: string)
    requires Carries(u, decode, line, data) && Sane(u)
    ensures SseReader(u, decode, delta)(line) ==
            if data == "[DONE]" then Stop(None)
            else if delta(data).Some? then Token(delta(data).value) else Skip
  {
    var lead, gap, trail :| Padded(u, decode(line), lead, gap, data, trail);
    PaddedField(u, decode(line), lead, gap, data, trail);
  }

  lemma SpaceAppend(u: Unicode, a: string, b: string)
    requires AllSpace(u, a) && AllSpace(u, b)
    ensures AllSpace(u, a + b)
  {
  }

  lemma SplitField(s: string, lead: string, text: string, trail: string, gap: string, data: string, more: string)
    requires s == lead + text + trail && "data:" <= text && text[5..] == gap + data + more
    ensures s == lead + "data:" + gap + data + (more + trail)
  {
    assert text == "data:" + (gap + data + more);
  }

  /** Any other line is passed over. */
  lemma OtherLineSkipped(u: Unicode, decode: Bytes -> string, delta: string -> Option<string>, line: Bytes)
    requires forall data :: !Carries(u, decode, line, data)
    ensures SseReader(u, decode, delta)(line) == Skip
  {
    var text := Trim(u, decode(line));
    if "data:" <= text {
      var lead, trail := TrimParts(u, decode(line));
      var gap, more := TrimParts(u, text[5..]);
      var data := Trim(u, text[5..]);
      TrimToNothing(u, text[5..]);
      SplitField(decode(line), lead, text, trail, gap, data, more);
      SpaceAppend(u, more, trail);
      assert Padded(u, decode(line), lead, gap, data, more + trail);
      assert Carries(u, decode, line, data);
    }
  }

  ghost predicate CarriesOr(u: Unicode, decode: Bytes -> string, line: Bytes, data: Option<string>) {
    if data.None? then forall d :: !Carries(u, decode, line, d)
    else Carries(u, decode, line, data.value) && data.value != "[DONE]"
  }

  /** Each line carries its payload, or, where there is none, is no data field. */
  ghost predicate AllCarry(u: Unicode, decode: Bytes -> string, lines: seq<Bytes>, datas: seq<Option<string>>) {
    && |lines| == |datas|
    && forall k :: 0 <= k < |lines| ==> CarriesOr(u, decode, lines[k], datas[k])
  }

  /** The contents of the payloads that have one. */
  function Contents(delta: string -> Option<string>, datas: seq<Option<string>>): seq<string> {
    if datas == [] then []
    else (if datas[0].None? then [] else Given(delta(datas[0].value))) + Contents(delta, datas[1..])
  }

  lemma {:induction false} SseTokens(u: Unicode, decode: Bytes -> string, delta: string -> Option<string>,
                                     lines: seq<Bytes>, datas: seq<Option<string>>)
    requires AllCarry(u, decode, lines, datas) && Sane(u)
    ensures Tokens(SseReader(u, decode, delta), lines) == Contents(delta, datas)
    ensures GoesOn(SseReader(u, decode, delta), lines)
    decreases |lines|
  {
    if lines != [] {
      assert CarriesOr(u, decode, lines[0], datas[0]);
      if datas[0].None? {
        OtherLineSkipped(u, decode, delta, lines[0]);
      } else {
        DataLineReads(u, decode, delta, lines[0], datas[0].value);
      }
      assert AllCarry(u, decode, lines[1..], datas[1..]);
      SseTokens(u, decode, delta, lines[1..], datas[1..]);
      assert forall k :: 0 < k < |lines| ==> lines[k] == lines[1..][k - 1];
    }
  }

  /** A body of data fields among other lines yields their contents, in order. */
  lemma SseBodyYields(u: Unicode, decode: Bytes -> string, delta: string -> Option<string>, lines: seq<Bytes>,
                      datas: seq<Option<string>>, tail: Bytes, broken: bool)
    requires AllCarry(u, decode, lines, datas) && Sane(u) && NoFeeds(lines) && LF !in tail
    ensures DecodeBody(SseReader(u, decode, delta), Written(lines) + tail, broken) ==
            (Contents(delta, datas), if broken then TransportError else Exhausted)
  {
    SseTokens(u, decode, delta, lines, datas);
    BodyRead(SseReader(u, decode, delta), lines, tail, broken);
  }

  /** And a data field of [DONE] ends it, whatever follows. */
  lemma SseDoneEnds(u: Unicode, decode: Bytes -> string, delta: string -> Option<string>, lines: seq<Bytes>,
                    datas: seq<Option<string>>, done: Bytes, rest: seq<Bytes>, tail: Bytes, broken: bool)
    requires AllCarry(u, decode, lines, datas) && Sane(u) && NoFeeds(lines + ([done] + rest)) && LF !in tail
    requires Carries(u, decode, done, "[DONE]")
    ensures DecodeBody(SseReader(u, decode, delta), Written(lines + ([done] + rest)) + tail, broken) ==
            (Contents(delta, datas), Marker)
  {
    SseTokens(u, decode, delta, lines, datas);
    DataLineReads(u, decode, delta, done, "[DONE]");
    BodyStopped(SseReader(u, decode, delta), lines, done, rest, tail, broken);
    assert Contents(delta, datas) + [] == Contents(delta, datas);
  }

  // ----- JSON lines -----

  /** What the JSON library makes of a line: nothing for an empty one or one it rejects. */
  predicate Parses(parse: Bytes -> Option<(string, bool)>, line: Bytes, parsed: Option<string>) {
    if line == [] then parsed == None
    else parse(line) == if parsed.None? then None else Some((parsed.value, false))
  }

  predicate AllParse(parse: Bytes -> Option<(string, bool)>, lines: seq<Bytes>, parsed: seq<Option<string>>) {
    |lines| == |parsed| && forall k :: 0 <= k < |lines| ==> Parses(parse, lines[k], parsed[k])
  }

  /** The contents that are not empty. */
  function NonEmpty(parsed: seq<Option<string>>): seq<string> {
    if parsed == [] then []
    else (if parsed[0] in {None, Some("")} then [] else [parsed[0].value]) + NonEmpty(parsed[1..])
  }

  lemma {:induction false} NdjsonTokens(parse: Bytes -> Option<(string, bool)>, lines: seq<Bytes>,
                                        parsed: seq<Option<string>>)
    requires AllParse(parse, lines, parsed)
    ensures Tokens(NdjsonReader(parse), lines) == NonEmpty(parsed) && GoesOn(NdjsonReader(parse), lines)
    decreases |lines|
  {
    if lines != [] {
      assert Parses(parse, lines[0], parsed[0]);
      assert AllParse(parse, lines[1..], parsed[1..]);
      NdjsonTokens(parse, lines[1..], parsed[1..]);
      assert forall k :: 0 < k < |lines| ==> lines[k] == lines[1..][k - 1];
    }
  }

  /** A body of JSON lines yields their non-empty contents, in order. */
  lemma NdjsonBodyYields(parse: Bytes -> Option<(string, bool)>, lines: seq<Bytes>, parsed: seq<Option<string>>,
                         tail: Bytes, broken: bool)
    requires AllParse(parse, lines, parsed) && NoFeeds(lines) && LF !in tail
    ensures DecodeBody(NdjsonReader(parse), Written(lines) + tail, broken) ==
            (NonEmpty(parsed), if broken then TransportError else Exhausted)
  {
    NdjsonTokens(parse, lines, parsed);
    BodyRead(NdjsonReader(parse), lines, tail, broken);
  }

  /** And the line marked done ends it, whatever follows; its own content counts. */
  lemma NdjsonDoneEnds(parse: Bytes -> Option<(string, bool)>, lines: seq<Bytes>, parsed: seq<Option<string>>,
                       last: Bytes, content: string, rest: seq<Bytes>, tail: Bytes, broken: bool)
    requires AllParse(parse, lines, parsed) && NoFeeds(lines + ([last] + rest)) && LF !in tail
    requires last != [] && parse(last) == Some((content, true))
    ensures DecodeBody(NdjsonReader(parse), Written(lines + ([last] + rest)) + tail, broken) ==
            (NonEmpty(parsed) + (if content == "" then [] else [content]), Marker)
  {
    NdjsonTokens(parse, lines, parsed);
    BodyStopped(NdjsonReader(parse), lines, last, rest, tail, broken);
  }
}
