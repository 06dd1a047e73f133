/** The token channel: what the router and the LLM feed the synthesis stage. */
module Tokens {
  /** EndOfAnswer travels in band: everything before it is the whole answer. */
  datatype TtsMsg = Token(text: string) | EndOfAnswer

  function EndsIn(msgs: seq<TtsMsg>): nat {
    if msgs == [] then 0 else EndsIn(msgs[1..]) + if msgs[0].EndOfAnswer? then 1 else 0
  }

  lemma {:induction false} EndsInAppend(a: seq<TtsMsg>, b: seq<TtsMsg>)
    ensures EndsIn(a + b) == EndsIn(a) + EndsIn(b)
    decreases |a|
  {
    if a == [] {
      assert a + b == b;
    } else {
      EndsInAppend(a[1..], b);
      assert (a + b)[1..] == a[1..] + b;
    }
  }
}
