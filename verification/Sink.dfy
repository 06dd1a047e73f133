/** The response sink: publishes audio, one leading tts/meta and a trailing done. */
module Sink {
  import opened Ints
  import opened Options

  datatype Codec = Opus | S16le | F32le | TextCodec

  datatype Format = Format(codec: Codec, sampleRate: u32)

  /** What the synthesis stage feeds the sink. */
  datatype Msg = Declare(format: Format) | Chunk(audio: seq<u8>) | AnswerEnd

  datatype Published = Meta(format: Format) | Audio(bytes: seq<u8>) | Done

  datatype SinkState = SinkState(sent: Option<Format>, answerDone: bool, out: seq<Published>)

  const INITIAL := SinkState(None, false, [])

  function Consume(s: SinkState, m: Msg): SinkState {
    match m
    case Declare(format) =>
      var s' := s.(answerDone := false);
      if s.sent.None? then s'.(sent := Some(format), out := s.out + [Meta(format)]) else s'
    case Chunk(bytes) => s.(answerDone := false, out := s.out + [Audio(bytes)])
    case AnswerEnd => s.(answerDone := true, out := s.out + [Done])
  }

  function ConsumeAll(msgs: seq<Msg>): SinkState {
    if msgs == [] then INITIAL else Consume(ConsumeAll(msgs[..|msgs| - 1]), msgs[|msgs| - 1])
  }

  /** Everything published for the messages consumed before the channel closed or
      the session was cancelled, teardown included. */
  function Output(msgs: seq<Msg>): seq<Published> {
    var s := ConsumeAll(msgs);
    if s.answerDone then s.out else s.out + [Done]
  }

  /** The sink's loop and teardown. */
  method RunSink(msgs: seq<Msg>) returns (out: seq<Published>)
    ensures out == Output(msgs)
  {
    var sent: Option<Format> := None;
    var answerDone := false;
    out := [];
    for i := 0 to |msgs|
      invariant SinkState(sent, answerDone, out) == ConsumeAll(msgs[..i])
    {
      assert msgs[..i + 1][..i] == msgs[..i];
      match msgs[i]
      case Declare(format) =>
        answerDone := false;
        if sent.None? {
          out := out + [Meta(format)];
          sent := Some(format);
        }
      case Chunk(bytes) =>
        answerDone := false;
        out := out + [Audio(bytes)];
      case AnswerEnd =>
        out := out + [Done];
        answerDone := true;
    }
    assert msgs[..|msgs|] == msgs;
    if !answerDone {
      out := out + [Done];
    }
  }

  // ----- done -----

  function Dones(out: seq<Published>): nat {
    if out == [] then 0 else Dones(out[..|out| - 1]) + if out[|out| - 1].Done? then 1 else 0
  }

  function Ends(msgs: seq<Msg>): nat {
    if msgs == [] then 0 else Ends(msgs[..|msgs| - 1]) + if msgs[|msgs| - 1].AnswerEnd? then 1 else 0
  }

  lemma DonesAppend(out: seq<Published>, p: Published)
    ensures Dones(out + [p]) == Dones(out) + if p.Done? then 1 else 0
  {
    assert (out + [p])[..|out|] == out;
  }

  lemma {:induction false} LiveDones(msgs: seq<Msg>)
    ensures Dones(ConsumeAll(msgs).out) == Ends(msgs)
    ensures ConsumeAll(msgs).answerDone <==> msgs != [] && msgs[|msgs| - 1].AnswerEnd?
    ensures var s := ConsumeAll(msgs); s.answerDone ==> s.out != [] && s.out[|s.out| - 1].Done?
  {
    if msgs != [] {
      var init, m := msgs[..|msgs| - 1], msgs[|msgs| - 1];
      LiveDones(init);
      var out := ConsumeAll(init).out;
      match m
      case Declare(f) => DonesAppend(out, Meta(f));
      case Chunk(b) => DonesAppend(out, Audio(b));
      case AnswerEnd => DonesAppend(out, Done);
    }
  }

  /** One done for each answer end, and one more at teardown exactly when something
      arrived since the last of them, or none ever came. */
  lemma DonePerAnswer(msgs: seq<Msg>)
    ensures Dones(Output(msgs)) ==
            Ends(msgs) + if msgs != [] && msgs[|msgs| - 1].AnswerEnd? then 0 else 1
  {
    LiveDones(msgs);
    DonesAppend(ConsumeAll(msgs).out, Done);
  }

  /** The last thing a session publishes is a done, so every chunk is followed by one. */
  lemma EveryChunkIsFollowedByDone(msgs: seq<Msg>)
    ensures Output(msgs) != [] && Output(msgs)[|Output(msgs)| - 1].Done?
  {
    LiveDones(msgs);
  }

  // ----- audio and meta -----

  function AudioOf(out: seq<Published>): seq<seq<u8>> {
    if out == [] then []
    else AudioOf(out[..|out| - 1]) + match out[|out| - 1] case Audio(b) => [b] case _ => []
  }

  function ChunksOf(msgs: seq<Msg>): seq<seq<u8>> {
    if msgs == [] then []
    else ChunksOf(msgs[..|msgs| - 1]) + match msgs[|msgs| - 1] case Chunk(b) => [b] case _ => []
  }

  lemma AudioAppend(out: seq<Published>, p: Published)
    ensures AudioOf(out + [p]) == AudioOf(out) + match p case Audio(b) => [b] case _ => []
  {
    assert (out + [p])[..|out|] == out;
  }

  /** Exactly the chunks consumed are published, in order. */
  lemma {:induction false} AudioIsConserved(msgs: seq<Msg>)
    ensures AudioOf(ConsumeAll(msgs).out) == ChunksOf(msgs)
  {
    if msgs != [] {
      var init, m := msgs[..|msgs| - 1], msgs[|msgs| - 1];
      AudioIsConserved(init);
      var out := ConsumeAll(init).out;
      match m
      case Declare(f) => AudioAppend(out, Meta(f));
      case Chunk(b) => AudioAppend(out, Audio(b));
      case AnswerEnd => AudioAppend(out, Done);
    }
  }

  ghost predicate MetaAt(out: seq<Published>, k: nat) {
    k < |out| && out[k].Meta?
  }

  /** Published before position i. */
  ghost predicate MetaBefore(out: seq<Published>, i: nat) {
    exists k: nat :: k < i && MetaAt(out, k)
  }

  ghost predicate MetaAtMostOnce(out: seq<Published>) {
    forall j: nat, k: nat :: MetaAt(out, j) && MetaAt(out, k) ==> j == k
  }

  ghost predicate AudioAfterMeta(out: seq<Published>) {
    forall i: nat :: i < |out| && out[i].Audio? ==> MetaBefore(out, i)
  }

  predicate Declares(msgs: seq<Msg>) {
    exists j :: 0 <= j < |msgs| && msgs[j].Declare?
  }

  /** Every chunk comes after a declaration: the synthesis stage sends no other streams. */
  predicate DeclaredFirst(msgs: seq<Msg>) {
    forall i :: 0 <= i < |msgs| && msgs[i].Chunk? ==> Declares(msgs[..i])
  }

  lemma DeclaresPrefix(msgs: seq<Msg>, i: nat)
    requires i <= |msgs| && Declares(msgs[..i])
    ensures Declares(msgs)
  {
    var j :| 0 <= j < i && msgs[..i][j].Declare?;
    assert msgs[j].Declare?;
  }

  ghost predicate MetaInv(s: SinkState) {
    && MetaAtMostOnce(s.out)
    && (s.sent.Some? <==> MetaBefore(s.out, |s.out|))
  }

  lemma MetaStep(s: SinkState, m: Msg)
    requires MetaInv(s)
    ensures MetaInv(Consume(s, m))
    ensures Consume(s, m).sent.Some? <==> s.sent.Some? || m.Declare?
  {
    var s' := Consume(s, m);
    assert forall k: nat :: MetaAt(s'.out, k) <==> MetaAt(s.out, k) || (k == |s.out| < |s'.out| && s'.out[k].Meta?);
    if s.sent.Some? {
      var k: nat :| k < |s.out| && MetaAt(s.out, k);
      assert MetaAt(s'.out, k);
    } else if m.Declare? {
      assert MetaAt(s'.out, |s.out|);
    }
  }

  lemma {:induction false} MetaRun(msgs: seq<Msg>)
    ensures MetaInv(ConsumeAll(msgs))
    ensures ConsumeAll(msgs).sent.Some? <==> Declares(msgs)
  {
    if msgs != [] {
      var init, m := msgs[..|msgs| - 1], msgs[|msgs| - 1];
      MetaRun(init);
      MetaStep(ConsumeAll(init), m);
      if Declares(init) {
        DeclaresPrefix(msgs, |init|);
      }
      if Declares(msgs) && !m.Declare? {
        var j :| 0 <= j < |msgs| && msgs[j].Declare?;
        assert init[j].Declare?;
      }
    }
  }

  lemma AudioStep(s: SinkState, m: Msg)
    requires MetaInv(s) && AudioAfterMeta(s.out) && (m.Chunk? ==> s.sent.Some?)
    ensures AudioAfterMeta(Consume(s, m).out)
  {
    var s' := Consume(s, m);
    forall i: nat | i < |s'.out| && s'.out[i].Audio? ensures MetaBefore(s'.out, i) {
      assert i < |s.out| ==> s.out[i].Audio?;
      var k: nat :| k < i && MetaAt(s.out, k);
      assert MetaAt(s'.out, k);
    }
  }

  /** On a declared-first stream, tts/meta is published at most once, and before any audio. */
  lemma {:induction false} MetaBeforeAudio(msgs: seq<Msg>)
    requires DeclaredFirst(msgs)
    ensures MetaAtMostOnce(ConsumeAll(msgs).out) && AudioAfterMeta(ConsumeAll(msgs).out)
  {
    MetaRun(msgs);
    if msgs != [] {
      var init, m := msgs[..|msgs| - 1], msgs[|msgs| - 1];
      forall i | 0 <= i < |init| && init[i].Chunk? ensures Declares(init[..i]) {
        assert msgs[i].Chunk? && msgs[..i] == init[..i];
      }
      MetaBeforeAudio(init);
      MetaRun(init);
      AudioStep(ConsumeAll(init), m);
    }
  }

  function MetasOf(out: seq<Published>): seq<Format> {
    if out == [] then []
    else MetasOf(out[..|out| - 1]) + match out[|out| - 1] case Meta(f) => [f] case _ => []
  }

  function FirstFormat(msgs: seq<Msg>): seq<Format> {
    if msgs == [] then []
    else
      var before := FirstFormat(msgs[..|msgs| - 1]);
      if before == [] && msgs[|msgs| - 1].Declare? then [msgs[|msgs| - 1].format] else before
  }

  lemma MetasAppend(out: seq<Published>, p: Published)
    ensures MetasOf(out + [p]) == MetasOf(out) + match p case Meta(f) => [f] case _ => []
  {
    assert (out + [p])[..|out|] == out;
  }

  /** What the satellite is told about the audio is the first format declared. */
  lemma {:induction false} MetaIsTheFirstFormat(msgs: seq<Msg>)
    ensures MetasOf(ConsumeAll(msgs).out) == FirstFormat(msgs)
    ensures ConsumeAll(msgs).sent.Some? <==> FirstFormat(msgs) != []
  {
    if msgs != [] {
      var init, m := msgs[..|msgs| - 1], msgs[|msgs| - 1];
      MetaIsTheFirstFormat(init);
      var out := ConsumeAll(init).out;
      match m
      case Declare(f) => MetasAppend(out, Meta(f));
      case Chunk(b) => MetasAppend(out, Audio(b));
      case AnswerEnd => MetasAppend(out, Done);
    }
  }
}
