/** The LLM actor: one prompt, one answer, one answer end, however it goes. */
module LlmActor {
  import opened Tokens

  datatype StreamItem = Piece(text: string) | Broken

  /** What the provider does with one prompt. */
  datatype Completion = Refused | Answering(items: seq<StreamItem>)

  function AnswerItems(apology: string, items: seq<StreamItem>, sentAny: bool): seq<TtsMsg>
    decreases |items|
  {
    if items == [] then []
    else
      match items[0]
      case Piece(t) => [Token(t)] + AnswerItems(apology, items[1..], true)
      case Broken => if sentAny then [] else [Token(apology)]
  }

  /** The messages one prompt puts on the token channel. */
  function Answer(apology: string, c: Completion): seq<TtsMsg> {
    match c
    case Refused => [Token(apology), EndOfAnswer]
    case Answering(items) => AnswerItems(apology, items, false) + [EndOfAnswer]
  }

  method AnswerPrompt(apology: string, c: Completion) returns (sent: seq<TtsMsg>)
    ensures sent == Answer(apology, c)
  {
    if c.Refused? {
      return [Token(apology), EndOfAnswer];
    }
    sent := [];
    var sentAny := false;
    for i := 0 to |c.items|
      invariant AnswerItems(apology, c.items, false) == sent + AnswerItems(apology, c.items[i..], sentAny)
    {
      assert c.items[i..][1..] == c.items[i + 1..];
      match c.items[i]
      case Piece(t) =>
        sentAny := true;
        assert sent + ([Token(t)] + AnswerItems(apology, c.items[i + 1..], true)) ==
               sent + [Token(t)] + AnswerItems(apology, c.items[i + 1..], true);
        sent := sent + [Token(t)];
      case Broken =>
        if !sentAny {
          sent := sent + [Token(apology)];
        }
        return sent + [EndOfAnswer];
    }
    return sent + [EndOfAnswer];
  }

  lemma {:induction false} ItemsHoldNoEnd(apology: string, items: seq<StreamItem>, sentAny: bool)
    ensures EndsIn(AnswerItems(apology, items, sentAny)) == 0
    decreases |items|
  {
    if items != [] && items[0].Piece? {
      ItemsHoldNoEnd(apology, items[1..], true);
      assert AnswerItems(apology, items, sentAny)[1..] == AnswerItems(apology, items[1..], true);
    }
  }

  /** Exactly one answer end, and it is last: on refusals, broken and empty streams too. */
  lemma OneEndAndLast(apology: string, c: Completion)
    ensures EndsIn(Answer(apology, c)) == 1
    ensures Answer(apology, c)[|Answer(apology, c)| - 1].EndOfAnswer?
  {
    match c
    case Refused =>
      assert Answer(apology, c)[1..] == [EndOfAnswer];
      assert [EndOfAnswer][1..] == [];
    case Answering(items) =>
      ItemsHoldNoEnd(apology, items, false);
      EndsInAppend(AnswerItems(apology, items, false), [EndOfAnswer]);
      assert [EndOfAnswer][1..] == [];
  }

  lemma FailureIsSpokenIn(apology: string, items: seq<StreamItem>)
    requires exists i :: 0 <= i < |items| && items[i].Broken?
    ensures AnswerItems(apology, items, false) != [] && AnswerItems(apology, items, false)[0].Token?
  {
  }

  /** A failing provider is never met with silence. */
  lemma FailureIsSpoken(apology: string, c: Completion)
    requires c.Refused? || exists i :: 0 <= i < |c.items| && c.items[i].Broken?
    ensures |Answer(apology, c)| >= 2 && Answer(apology, c)[0].Token?
  {
    if c.Answering? {
      FailureIsSpokenIn(apology, c.items);
    }
  }

  /** The first n items arrived before the stream ended or broke. */
  predicate BreaksAt(items: seq<StreamItem>, n: nat) {
    && n <= |items| && (forall i :: 0 <= i < n ==> items[i].Piece?)
    && (n < |items| ==> items[n].Broken?)
  }

  function TokensOf(items: seq<StreamItem>): (r: seq<TtsMsg>)
    requires forall i :: 0 <= i < |items| ==> items[i].Piece?
    ensures |r| == |items| && forall i :: 0 <= i < |r| ==> r[i] == Token(items[i].text)
  {
    seq(|items|, i requires 0 <= i < |items| => Token(items[i].text))
  }

  lemma {:induction false} ItemsSpelled(apology: string, items: seq<StreamItem>, n: nat, sentAny: bool)
    requires BreaksAt(items, n)
    ensures AnswerItems(apology, items, sentAny) ==
            TokensOf(items[..n]) + if n < |items| && n == 0 && !sentAny then [Token(apology)] else []
    decreases |items|
  {
    if n != 0 {
      ItemsSpelled(apology, items[1..], n - 1, true);
      assert TokensOf(items[..n]) == [Token(items[0].text)] + TokensOf(items[1..][..n - 1]);
    }
  }

  function Arrived(items: seq<StreamItem>): (n: nat)
    ensures BreaksAt(items, n)
    decreases |items|
  {
    if items == [] || items[0].Broken? then 0 else 1 + Arrived(items[1..])
  }

  /** Exactly the pieces that arrived, in order, then the end; in between the apology, if
      the provider refused or its stream broke before the first piece. */
  lemma AnswerIsWhatArrived(apology: string, c: Completion)
    ensures c.Refused? ==> Answer(apology, c) == [Token(apology), EndOfAnswer]
    ensures c.Answering? ==>
              exists n: nat :: BreaksAt(c.items, n)
                && Answer(apology, c) ==
                   TokensOf(c.items[..n])
                   + (if n == 0 && c.items != [] then [Token(apology)] else []) + [EndOfAnswer]
  {
    if c.Answering? {
      var n := Arrived(c.items);
      ItemsSpelled(apology, c.items, n, false);
    }
  }
}
