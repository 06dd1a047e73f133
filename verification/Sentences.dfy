/** Sentence aggregation: token fragments are buffered verbatim and cut into
    trimmed texts at sentence ends, at a length cap, or on demand. */
module Sentences {
  import opened Options
  import opened Text

  const CAP_BYTES: nat := 100
  const IDLE_FLUSH_MS: nat := 800

  predicate IsBoundary(c: char) {
    c in {'.', '!', '?'}
  }

  /** Length of one character in UTF-8. */
  function Width(c: char): (w: nat)
    ensures 1 <= w <= 4
  {
    if c as int < 0x80 then 1 else if c as int < 0x800 then 2 else if c as int < 0x1_0000 then 3 else 4
  }

  function ByteLength(s: string): nat {
    if s == "" then 0 else ByteLength(s[..|s| - 1]) + Width(s[|s| - 1])
  }

  predicate EndsSentence(u: Unicode, s: string) {
    var t := TrimEnd(u, s);
    t != "" && IsBoundary(t[|t| - 1])
  }

  /** The buffer after a push, and the text it released. */
  function Push(u: Unicode, buf: string, token: string): (string, Option<string>) {
    var b := buf + token;
    if (EndsSentence(u, b) || CAP_BYTES <= ByteLength(b)) && Trim(u, b) != "" then ("", Some(Trim(u, b)))
    else (b, None)
  }

  function Take(u: Unicode, buf: string): Option<string> {
    if Trim(u, buf) == "" then None else Some(Trim(u, buf))
  }

  class SentenceBuffer {
    const u: Unicode
    var buf: string

    constructor (u: Unicode)
      ensures this.u == u && buf == ""
    {
      this.u := u;
      buf := "";
    }

    method PushToken(token: string) returns (out: Option<string>)
      modifies this
      ensures (buf, out) == Push(u, old(buf), token)
    {
      buf := buf + token;
      var trimmed := TrimEnd(u, buf);
      var boundary := trimmed != "" && IsBoundary(trimmed[|trimmed| - 1]);
      if (boundary || ByteLength(buf) >= CAP_BYTES) && Trim(u, buf) != "" {
        out := Some(Trim(u, buf));
        buf := "";
        return;
      }
      return None;
    }

    method TakeAll() returns (out: Option<string>)
      modifies this
      ensures buf == "" && out == Take(u, old(buf))
    {
      var text := Trim(u, buf);
      buf := "";
      return if text == "" then None else Some(text);
    }

    method Clear()
      modifies this
      ensures buf == ""
    {
      buf := "";
    }
  }

  // ----- No text is lost, invented or reordered -----

  /** whole is texts laid end to end with only white space between, before and after. */
  ghost predicate Covers(u: Unicode, whole: string, texts: seq<string>)
    decreases |texts|, 0
  {
    if texts == [] then AllSpace(u, whole)
    else EndsWith(u, whole, texts[..|texts| - 1], texts[|texts| - 1])
  }

  ghost predicate CutAt(u: Unicode, whole: string, text: string, head: string, space: string) {
    whole == head + text + space && AllSpace(u, space)
  }

  ghost predicate EndsWith(u: Unicode, whole: string, init: seq<string>, last: string)
    decreases |init|, 1
  {
    exists head, space :: CutAt(u, whole, last, head, space) && Covers(u, head, init)
  }

  ghost predicate AllSpoken(u: Unicode, texts: seq<string>) {
    forall k :: 0 <= k < |texts| ==> texts[k] != "" && IsTrimmed(u, texts[k])
  }

  lemma CoversTrailingSpace(u: Unicode, whole: string, texts: seq<string>, more: string)
    requires Covers(u, whole, texts) && AllSpace(u, more)
    ensures Covers(u, whole + more, texts)
  {
    if texts != [] {
      var last := texts[|texts| - 1];
      var head, space :| CutAt(u, whole, last, head, space) && Covers(u, head, texts[..|texts| - 1]);
      assert whole + more == head + last + (space + more);
      assert CutAt(u, whole + more, last, head, space + more);
    }
  }

  lemma CoversAppend(u: Unicode, whole: string, texts: seq<string>, lead: string, text: string, trail: string)
    requires Covers(u, whole, texts) && AllSpace(u, lead) && AllSpace(u, trail)
    ensures Covers(u, whole + lead + text + trail, texts + [text])
  {
    CoversTrailingSpace(u, whole, texts, lead);
    assert CutAt(u, whole + lead + text + trail, text, whole + lead, trail);
    var all := texts + [text];
    assert all[..|all| - 1] == texts && all[|all| - 1] == text;
  }

  lemma Regroup(a: string, b: string, c: string, d: string)
    ensures a + (b + c + d) == a + b + c + d
  {
  }

  /** Appending a fragment to whole and its trimmed form to texts. */
  lemma CoversCut(u: Unicode, whole: string, texts: seq<string>, fragment: string)
    requires Covers(u, whole, texts)
    ensures Covers(u, whole + fragment, texts + [Trim(u, fragment)])
  {
    var lead, trail := TrimParts(u, fragment);
    CoversAppend(u, whole, texts, lead, Trim(u, fragment), trail);
    Regroup(whole, lead, Trim(u, fragment), trail);
  }

  function Released(out: Option<string>): seq<string> {
    if out.None? then [] else [out.value]
  }

  /** Everything received is what was cut into texts plus what is still buffered. */
  ghost predicate Held(u: Unicode, received: string, cut: string, texts: seq<string>, buf: string) {
    received == cut + buf && Covers(u, cut, texts) && AllSpoken(u, texts)
  }

  lemma ReleaseHolds(u: Unicode, cut: string, texts: seq<string>, b: string)
    requires Covers(u, cut, texts) && AllSpoken(u, texts)
    ensures Held(u, cut + b, cut + b, texts + Released(Take(u, b)), "")
  {
    assert cut + b + "" == cut + b;
    TrimToNothing(u, b);
    if Take(u, b).None? {
      CoversTrailingSpace(u, cut, texts, b);
      assert texts + [] == texts;
    } else {
      CoversCut(u, cut, texts, b);
    }
  }

  lemma PushHolds(u: Unicode, received: string, cut: string, texts: seq<string>, buf: string, token: string)
    requires Held(u, received, cut, texts, buf)
    ensures var (buf', out) := Push(u, buf, token);
            Held(u, received + token, if out.Some? then received + token else cut, texts + Released(out), buf')
  {
    assert received + token == cut + (buf + token);
    assert texts + [] == texts;
    ReleaseHolds(u, cut, texts, buf + token);
  }

  /** Some part of what was received has been cut into exactly these texts, and the
      rest is the buffer. */
  ghost predicate Kept(u: Unicode, received: string, texts: seq<string>, buf: string) {
    exists cut :: Held(u, received, cut, texts, buf)
  }

  /** A relation between a text's tokens, the texts cut from them, and the buffer.
      The actors are proved for any such relation; Kept is the one that matters. */
  type Keeping = (string, seq<string>, string) -> bool

  ghost function KeptIn(u: Unicode): Keeping {
    (received: string, texts: seq<string>, buf: string) => Kept(u, received, texts, buf)
  }

  lemma KeptAtStart(u: Unicode)
    ensures Kept(u, "", [], "")
  {
    assert Held(u, "", "", [], "");
  }

  lemma KeptByTake(u: Unicode, received: string, texts: seq<string>, buf: string)
    requires Kept(u, received, texts, buf)
    ensures Kept(u, received, texts + Released(Take(u, buf)), "")
  {
    var cut :| Held(u, received, cut, texts, buf);
    ReleaseHolds(u, cut, texts, buf);
  }

  lemma KeptByPush(u: Unicode, received: string, texts: seq<string>, buf: string, token: string)
    requires Kept(u, received, texts, buf)
    ensures Kept(u, received + token, texts + Released(Push(u, buf, token).1), Push(u, buf, token).0)
  {
    var cut :| Held(u, received, cut, texts, buf);
    PushHolds(u, received, cut, texts, buf, token);
  }

  lemma KeptInFull(u: Unicode, received: string, texts: seq<string>)
    requires Kept(u, received, texts, "")
    ensures Covers(u, received, texts) && AllSpoken(u, texts)
  {
    var cut :| Held(u, received, cut, texts, "");
    assert cut + "" == cut;
  }

  predicate EndsAt(u: Unicode, s: string, i: nat)
    requires i < |s|
  {
    !u.isSpace(s[i]) && forall k :: i < k < |s| ==> u.isSpace(s[k])
  }

  /** The last character that is not white space ends a sentence. */
  ghost predicate ReadsEnded(u: Unicode, s: string) {
    exists i :: 0 <= i < |s| && EndsAt(u, s, i) && (s[i] == '.' || s[i] == '!' || s[i] == '?')
  }

  lemma EndIsUnique(u: Unicode, s: string)
    ensures EndsSentence(u, s) <==> ReadsEnded(u, s)
  {
    var n := TrimEndCuts(u, s);
    assert forall k :: n <= k < |s| ==> s[k] == s[n..][k - n];
    if n != 0 {
      assert EndsAt(u, s, n - 1);
      assert forall i :: 0 <= i < |s| && EndsAt(u, s, i) ==> i == n - 1;
    }
  }

  /** What may stay in the buffer: white space, or less than 100 bytes that do not end a
      sentence. */
  ghost predicate Unfinished(u: Unicode, buf: string) {
    AllSpace(u, buf) || (!ReadsEnded(u, buf) && ByteLength(buf) < 100)
  }

  /** A push releases everything, trimmed, exactly when what is buffered is not mere white
      space and either ends a sentence or has reached 100 bytes; else it keeps all. */
  lemma ReleasesExactly(u: Unicode, buf: string, token: string)
    ensures Push(u, buf, token) ==
            if Unfinished(u, buf + token) then (buf + token, None) else ("", Some(Trim(u, buf + token)))
  {
    TrimToNothing(u, buf + token);
    EndIsUnique(u, buf + token);
  }

  lemma PushHoldsBack(u: Unicode, buf: string, token: string)
    ensures Unfinished(u, Push(u, buf, token).0)
  {
    ReleasesExactly(u, buf, token);
  }

  lemma PushEmpties(u: Unicode, buf: string, token: string)
    ensures Push(u, buf, token).1.Some? ==> Push(u, buf, token).0 == ""
  {
  }

  /** The cap counts bytes: one for each ASCII character, at most four for any other. */
  lemma {:induction false} BytesCounted(s: string)
    ensures |s| <= ByteLength(s) <= 4 * |s|
    ensures (forall i :: 0 <= i < |s| ==> s[i] < 0x80 as char) <==> ByteLength(s) == |s|
  {
    if s != "" {
      var init := s[..|s| - 1];
      BytesCounted(init);
      assert forall i :: 0 <= i < |init| ==> s[i] == init[i];
      assert s[|s| - 1] < 0x80 as char <==> Width(s[|s| - 1]) == 1;
      if forall i :: 0 <= i < |init| ==> init[i] < 0x80 as char {
        assert s[|s| - 1] < 0x80 as char ==> forall i :: 0 <= i < |s| ==> s[i] < 0x80 as char;
      }
    }
  }

  // ----- Covering determines the spoken characters -----

  function Spoken(u: Unicode, s: string): string {
    if s == "" then ""
    else Spoken(u, s[..|s| - 1]) + if u.isSpace(s[|s| - 1]) then "" else [s[|s| - 1]]
  }

  function Concat(texts: seq<string>): string {
    if texts == [] then "" else Concat(texts[..|texts| - 1]) + texts[|texts| - 1]
  }

  lemma {:induction false} SpokenAppend(u: Unicode, a: string, b: string)
    ensures Spoken(u, a + b) == Spoken(u, a) + Spoken(u, b)
  {
    if b == "" {
      assert a + b == a;
    } else {
      SpokenAppend(u, a, b[..|b| - 1]);
      assert (a + b)[..|a + b| - 1] == a + b[..|b| - 1];
    }
  }

  lemma {:induction false} SpokenOfSpace(u: Unicode, s: string)
    requires AllSpace(u, s)
    ensures Spoken(u, s) == ""
  {
    if s != "" {
      SpokenOfSpace(u, s[..|s| - 1]);
    }
  }

  /** Up to white space, the texts of an answer are its tokens: not a character
      is missing, doubled or moved. */
  lemma {:induction false} CoversKeepsCharacters(u: Unicode, whole: string, texts: seq<string>)
    requires Covers(u, whole, texts)
    ensures Spoken(u, whole) == Spoken(u, Concat(texts))
    decreases |texts|
  {
    if texts == [] {
      SpokenOfSpace(u, whole);
    } else {
      var init, last := texts[..|texts| - 1], texts[|texts| - 1];
      var head, space :| CutAt(u, whole, last, head, space) && Covers(u, head, init);
      CoversKeepsCharacters(u, head, init);
      SpokenOfSpace(u, space);
      SpokenAppend(u, head + last, space);
      SpokenAppend(u, head, last);
      SpokenAppend(u, Concat(init), last);
    }
  }
}
