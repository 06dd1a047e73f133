/** Phrases with slots: the template parser, and the walk that locates the literals
    of a template in an utterance and takes the text between them as slot values. */
module Templates {
  datatype Segment = Literal(text: string) | Slot(name: string)

  // ----- split_phrase -----

  /** Length of s up to the first c. */
  function UpTo(s: string, c: char): (n: nat)
    ensures n <= |s| && (n < |s| ==> s[n] == c)
    ensures forall i :: 0 <= i < n ==> s[i] != c
  {
    if s == "" || s[0] == c then 0 else UpTo(s[1..], c) + 1
  }

  /** What follows the closing brace, nothing if there is none. */
  function AfterSlot(s: string): (r: string)
    ensures |r| <= |s|
  {
    var n := UpTo(s, '}');
    if n < |s| then s[n + 1..] else ""
  }

  function Split(phrase: string): seq<Segment>
    decreases |phrase|
  {
    if phrase == "" then []
    else if phrase[0] == '{' then
      var n := UpTo(phrase[1..], '}');
      [Slot(phrase[1..][..n])] + Split(AfterSlot(phrase[1..]))
    else
      var n := UpTo(phrase, '{');
      [Literal(phrase[..n])] + Split(phrase[n..])
  }

  /** What the parser will have produced in the end. */
  function Parsed(out: seq<Segment>, buf: string, rest: string): seq<Segment> {
    out + Split(buf + rest)
  }

  lemma NothingBefore(out: seq<Segment>, phrase: string)
    requires out == []
    ensures Parsed(out, "", phrase[0..]) == Split(phrase)
  {
    assert "" + phrase[0..] == phrase;
  }

  lemma CharParsed(out: seq<Segment>, buf: string, phrase: string, i: nat)
    requires i < |phrase|
    ensures Parsed(out, buf, phrase[i..]) == Parsed(out, buf + [phrase[i]], phrase[i + 1..])
  {
    assert buf + phrase[i..] == buf + [phrase[i]] + phrase[i + 1..];
  }

  /** The literal collected so far, if any. */
  function Pending(buf: string): seq<Segment> {
    if buf == "" then [] else [Literal(buf)]
  }

  lemma {:induction false} UpToIs(s: string, c: char, n: nat)
    requires n <= |s| && c !in s[..n] && (n < |s| ==> s[n] == c)
    ensures UpTo(s, c) == n
  {
    if n != 0 {
      assert s[0] == s[..n][0];
      assert s[1..][..n - 1] == s[..n][1..];
      UpToIs(s[1..], c, n - 1);
    }
  }

  lemma SplitLiteral(lit: string, rest: string)
    requires lit != "" && '{' !in lit && (rest == "" || rest[0] == '{')
    ensures Split(lit + rest) == [Literal(lit)] + Split(rest)
  {
    var s := lit + rest;
    assert s[..|lit|] == lit && s[|lit|..] == rest;
    UpToIs(s, '{', |lit|);
  }

  lemma EndParsed(out: seq<Segment>, buf: string, rest: string)
    requires rest == "" && '{' !in buf
    ensures Parsed(out, buf, rest) == out + Pending(buf)
  {
    assert buf + rest == buf;
    if buf != "" {
      SplitLiteral(buf, "");
      assert buf + "" == buf && [Literal(buf)] + [] == [Literal(buf)];
    }
  }

  /** name runs from start to the closing brace before next, or to the end. */
  predicate IsName(phrase: string, start: nat, name: string, next: nat) {
    && '}' !in name
    && start + |name| <= |phrase| && name == phrase[start..start + |name|]
    && if start + |name| < |phrase| then phrase[start + |name|] == '}' && next == start + |name| + 1
       else next == |phrase|
  }

  lemma SplitAtBrace(buf: string, rest: string)
    requires '{' !in buf && rest != "" && rest[0] == '{'
    ensures Split(buf + rest) == Pending(buf) + Split(rest)
  {
    if buf == "" {
      assert buf + rest == rest && [] + Split(rest) == Split(rest);
    } else {
      SplitLiteral(buf, rest);
    }
  }

  lemma NameParsed(phrase: string, i: nat, name: string, next: nat)
    requires i < |phrase| && phrase[i] == '{' && i < next <= |phrase| && IsName(phrase, i + 1, name, next)
    ensures Split(phrase[i..]) == [Slot(name)] + Split(phrase[next..])
  {
    var tail := phrase[i + 1..];
    assert phrase[i..][1..] == tail && tail[..|name|] == name;
    UpToIs(tail, '}', |name|);
    assert AfterSlot(tail) == phrase[next..];
  }

  lemma Shuffle(a: seq<Segment>, b: seq<Segment>, c: seq<Segment>, d: seq<Segment>)
    ensures a + (b + (c + d)) == a + b + c + d
    ensures a + [] == a
  {
  }

  lemma SlotParsed(before: seq<Segment>, buf: string, phrase: string, i: nat, name: string, next: nat)
    requires i < |phrase| && phrase[i] == '{' && '{' !in buf
    requires i < next <= |phrase| && IsName(phrase, i + 1, name, next)
    ensures Parsed(before, buf, phrase[i..]) ==
            Parsed((if buf == "" then before else before + [Literal(buf)]) + [Slot(name)], "", phrase[next..])
  {
    SplitAtBrace(buf, phrase[i..]);
    NameParsed(phrase, i, name, next);
    assert "" + phrase[next..] == phrase[next..];
    Shuffle(before, Pending(buf), [Slot(name)], Split(phrase[next..]));
  }

  method SplitPhrase(phrase: string) returns (out: seq<Segment>)
    ensures out == Split(phrase)
  {
    out := [];
    var buf := "";
    var i := 0;
    NothingBefore(out, phrase);
    while i < |phrase|
      invariant 0 <= i <= |phrase| && '{' !in buf
      invariant Parsed(out, buf, phrase[i..]) == Split(phrase)
      decreases |phrase| - i
    {
      var c := phrase[i];
      if c == '{' {
        ghost var before, lit, at := out, buf, i;
        if buf != "" {
          out := out + [Literal(buf)];
          buf := "";
        }
        var name, next := TakeName(phrase, i + 1);
        out := out + [Slot(name)];
        i := next;
        SlotParsed(before, lit, phrase, at, name, next);
      } else {
        CharParsed(out, buf, phrase, i);
        buf := buf + [c];
        i := i + 1;
      }
    }
    EndParsed(out, buf, phrase[i..]);
    if buf != "" {
      out := out + [Literal(buf)];
    }
  }

  method TakeName(phrase: string, start: nat) returns (name: string, next: nat)
    requires start <= |phrase|
    ensures start <= next <= |phrase| && IsName(phrase, start, name, next)
  {
    name := "";
    next := start;
    while next < |phrase|
      invariant start <= next <= |phrase| && name == phrase[start..next] && '}' !in name
    {
      var c := phrase[next];
      next := next + 1;
      if c == '}' {
        return;
      }
      name := name + [c];
    }
  }

  lemma SplitSlot(name: string, rest: string)
    requires '}' !in name
    ensures Split("{" + name + "}" + rest) == [Slot(name)] + Split(rest)
  {
    var s := "{" + name + "}" + rest;
    var tail := name + "}" + rest;
    assert s[1..] == tail && tail[..|name|] == name && tail[|name| + 1..] == rest;
    UpToIs(tail, '}', |name|);
  }

  function Render(segs: seq<Segment>): string {
    if segs == [] then ""
    else (match segs[0] case Literal(text) => text case Slot(name) => "{" + name + "}") + Render(segs[1..])
  }

  /** What a parsed template looks like: no literal is empty, holds an opening brace
      or follows another literal, and no slot name holds a closing brace. */
  predicate WellFormed(segs: seq<Segment>) {
    && (forall k :: 0 <= k < |segs| && segs[k].Literal? ==> segs[k].text != "" && '{' !in segs[k].text)
    && (forall k :: 0 <= k < |segs| && segs[k].Slot? ==> '}' !in segs[k].name)
    && (forall k :: 0 < k < |segs| && segs[k].Literal? ==> segs[k - 1].Slot?)
  }

  lemma RenderStarts(segs: seq<Segment>)
    requires segs != [] && segs[0].Slot?
    ensures Render(segs) != "" && Render(segs)[0] == '{'
  {
  }

  lemma TailWellFormed(segs: seq<Segment>)
    requires WellFormed(segs) && segs != []
    ensures WellFormed(segs[1..])
  {
    assert forall k :: 0 <= k < |segs[1..]| ==> segs[1..][k] == segs[k + 1];
  }

  /** Parsing undoes rendering. */
  lemma {:induction false} SplitOfRender(segs: seq<Segment>)
    requires WellFormed(segs)
    ensures Split(Render(segs)) == segs
  {
    if segs != [] {
      TailWellFormed(segs);
      SplitOfRender(segs[1..]);
      assert segs == [segs[0]] + segs[1..];
      match segs[0]
      case Slot(name) => SplitSlot(name, Render(segs[1..]));
      case Literal(text) =>
        if segs[1..] != [] {
          assert segs[1].Slot?;
          RenderStarts(segs[1..]);
        }
        SplitLiteral(text, Render(segs[1..]));
    }
  }

  lemma SplitIsWellFormedStep(first: Segment, rest: seq<Segment>)
    requires WellFormed(rest)
    requires first.Literal? ==> first.text != "" && '{' !in first.text && (rest == [] || rest[0].Slot?)
    requires first.Slot? ==> '}' !in first.name
    ensures WellFormed([first] + rest)
  {
    var segs := [first] + rest;
    assert forall k :: 1 <= k < |segs| ==> segs[k] == rest[k - 1];
  }

  lemma RenderFirst(first: Segment, rest: seq<Segment>)
    ensures Render([first] + rest) ==
            (match first case Literal(text) => text case Slot(name) => "{" + name + "}") + Render(rest)
  {
    assert ([first] + rest)[1..] == rest;
  }

  lemma CutAtBrace(tail: string, n: nat)
    requires n < |tail| && tail[n] == '}'
    ensures "{" + tail[..n] + "}" + tail[n + 1..] == "{" + tail
  {
    assert tail == tail[..n] + ("}" + tail[n + 1..]);
  }

  lemma OpenSlot(tail: string)
    ensures var n := UpTo(tail, '}');
            "{" + tail[..n] + "}" + AfterSlot(tail) == if n < |tail| then "{" + tail else "{" + tail + "}"
  {
    var n := UpTo(tail, '}');
    if n < |tail| {
      CutAtBrace(tail, n);
    } else {
      assert tail[..n] == tail;
    }
  }

  predicate Renders(phrase: string, segs: seq<Segment>) {
    WellFormed(segs) && (Render(segs) == phrase || Render(segs) == phrase + "}")
  }

  lemma SlotRenders(tail: string, rest: seq<Segment>)
    requires Renders(AfterSlot(tail), rest) && (AfterSlot(tail) == "" ==> rest == [])
    ensures Renders("{" + tail, [Slot(tail[..UpTo(tail, '}')])] + rest)
  {
    var n := UpTo(tail, '}');
    var head, after := "{" + tail[..n] + "}", AfterSlot(tail);
    OpenSlot(tail);
    RenderFirst(Slot(tail[..n]), rest);
    SplitIsWellFormedStep(Slot(tail[..n]), rest);
    assert head + (after + "}") == head + after + "}";
  }

  lemma LiteralRenders(lit: string, after: string, rest: seq<Segment>)
    requires Renders(after, rest) && lit != "" && '{' !in lit && (rest == [] || rest[0].Slot?)
    ensures Renders(lit + after, [Literal(lit)] + rest)
  {
    RenderFirst(Literal(lit), rest);
    SplitIsWellFormedStep(Literal(lit), rest);
    assert lit + (after + "}") == lit + after + "}";
  }

  lemma FirstChar(s: string)
    requires s != ""
    ensures s == [s[0]] + s[1..]
  {
  }

  lemma SlotOrNothing(s: string)
    requires s == "" || s[0] == '{'
    ensures Split(s) == [] || Split(s)[0].Slot?
  {
  }

  lemma LiteralFirst(phrase: string, n: nat)
    requires phrase != "" && phrase[0] != '{' && n == UpTo(phrase, '{')
    ensures Split(phrase) == [Literal(phrase[..n])] + Split(phrase[n..])
  {
  }

  lemma CutAt(s: string, n: nat)
    requires n <= |s|
    ensures s == s[..n] + s[n..]
  {
  }

  /** Every phrase parses to a well-formed template that renders back to it; only a
      slot left open at the end gains its closing brace. */
  lemma {:induction false} RenderOfSplit(phrase: string)
    ensures Renders(phrase, Split(phrase))
    decreases |phrase|
  {
    if phrase == "" {
    } else if phrase[0] == '{' {
      RenderOfSplit(AfterSlot(phrase[1..]));
      SlotRenders(phrase[1..], Split(AfterSlot(phrase[1..])));
      FirstChar(phrase);
    } else {
      var n := UpTo(phrase, '{');
      RenderOfSplit(phrase[n..]);
      SlotOrNothing(phrase[n..]);
      LiteralRenders(phrase[..n], phrase[n..], Split(phrase[n..]));
      LiteralFirst(phrase, n);
      CutAt(phrase, n);
    }
  }

  lemma SplitNonEmpty(phrase: string)
    requires phrase != ""
    ensures Split(phrase) != []
  {
  }

  /** A phrase parses to a single literal exactly when it is non-empty and has no slot. */
  lemma SlotlessIff(phrase: string)
    ensures phrase != "" && '{' !in phrase <==> Split(phrase) == [Literal(phrase)]
    ensures |Split(phrase)| == 1 && Split(phrase)[0].Literal? ==> Split(phrase) == [Literal(phrase)]
  {
    if phrase != "" && '{' !in phrase {
      SplitLiteral(phrase, "");
      assert phrase + "" == phrase;
    } else if phrase != "" && phrase[0] == '{' {
      assert Split(phrase)[0].Slot?;
    } else if phrase != "" {
      var n := UpTo(phrase, '{');
      SplitNonEmpty(phrase[n..]);
      assert |Split(phrase)| >= 2;
    }
  }
}
