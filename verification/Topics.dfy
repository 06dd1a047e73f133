/** The assist bridge's topics and payloads: questions come in on
    {prefix}/transcription/{device}, answers go out on {prefix}/tts/{device}. */
module Topics {
  import opened Chunks
  import opened Options
  import opened Text

  function StripPrefix(s: string, prefix: string): (r: Option<string>)
    ensures r.Some? <==> prefix <= s
    ensures r.Some? ==> s == prefix + r.value
  {
    if prefix <= s then Some(s[|prefix|..]) else None
  }

  const QUESTIONS: string := "/transcription/"

  /** A device id that cannot steer the topic of its answer. */
  predicate IsDeviceId(device: string) {
    device != "" && '/' !in device && '+' !in device && '#' !in device
  }

  function ParseTranscription(prefix: string, topic: string): Option<string> {
    match StripPrefix(topic, prefix)
    case None => None
    case Some(tail) =>
      match StripPrefix(tail, "/")
      case None => None
      case Some(rest) =>
        match StripPrefix(rest, "transcription/")
        case None => None
        case Some(device) => if IsDeviceId(device) then Some(device) else None
  }

  /** A topic belongs to the bridge, for a device, exactly if it is that device's. */
  lemma ParsesExactly(prefix: string, topic: string, device: string)
    ensures ParseTranscription(prefix, topic) == Some(device) <==>
            IsDeviceId(device) && topic == prefix + QUESTIONS + device
    ensures ParseTranscription(prefix, topic) == Some(device) <==>
            && topic == prefix + "/transcription/" + device && device != ""
            && forall i :: 0 <= i < |device| ==> device[i] != '/' && device[i] != '+' && device[i] != '#'
  {
    assert prefix + ("/" + ("transcription/" + device)) == prefix + QUESTIONS + device;
    if topic == prefix + QUESTIONS + device {
      assert topic[|prefix|..] == "/" + ("transcription/" + device);
      assert topic[|prefix|..][1..] == "transcription/" + device;
      assert topic[|prefix|..][1..][14..] == device;
    }
  }

  function AnswerTopic(prefix: string, device: string): string {
    prefix + "/tts/" + device
  }

  function StatusTopic(prefix: string, device: string): string {
    prefix + "/llm/" + device + "/status"
  }

  lemma OtherTopic(prefix: string, rest: string)
    requires !("transcription/" <= rest)
    ensures ParseTranscription(prefix, prefix + "/" + rest).None?
  {
    assert (prefix + "/" + rest)[|prefix|..] == "/" + rest;
    assert ("/" + rest)[1..] == rest;
  }

  lemma AnswerIsOther(prefix: string, device: string)
    ensures ParseTranscription(prefix, AnswerTopic(prefix, device)).None?
  {
    var answer := "tts/" + device;
    assert answer[1] == 't' && "transcription/"[1] == 'r';
    OtherTopic(prefix, answer);
    assert prefix + "/" + answer == AnswerTopic(prefix, device);
  }

  lemma StatusIsOther(prefix: string, device: string)
    ensures ParseTranscription(prefix, StatusTopic(prefix, device)).None?
  {
    var status := "llm/" + device + "/status";
    assert status[0] == 'l' && "transcription/"[0] == 't';
    OtherTopic(prefix, status);
    assert prefix + "/" + status == StatusTopic(prefix, device);
  }

  /** The bridge never takes what it publishes itself for a question. */
  lemma NeverHearsItself(prefix: string, device: string)
    ensures ParseTranscription(prefix, AnswerTopic(prefix, device)).None?
    ensures ParseTranscription(prefix, StatusTopic(prefix, device)).None?
  {
    AnswerIsOther(prefix, device);
    StatusIsOther(prefix, device);
  }

  /** textField is what the JSON library finds under "text", if that is a string. */
  function ParseText(u: Unicode, textField: Bytes -> Option<string>, payload: Bytes): Option<string> {
    match textField(payload)
    case None => None
    case Some(text) => if Trim(u, text) == "" then None else Some(Trim(u, text))
  }

  /** A payload carries a question exactly if its text is not mere white space; the
      question is that text without the white space around it. */
  lemma ParsesText(u: Unicode, textField: Bytes -> Option<string>, payload: Bytes, question: string)
    ensures ParseText(u, textField, payload) == Some(question) <==>
            question != "" && IsTrimmed(u, question) && textField(payload).Some?
            && exists lead, trail ::
                 AllSpace(u, lead) && AllSpace(u, trail) && textField(payload).value == lead + question + trail
  {
    if textField(payload).Some? {
      var text := textField(payload).value;
      TrimToNothing(u, text);
      var lead, trail := TrimParts(u, text);
      if ParseText(u, textField, payload) == Some(question) {
        assert text == lead + question + trail;
      }
      if question != "" && IsTrimmed(u, question) {
        forall l, r | AllSpace(u, l) && AllSpace(u, r) && text == l + question + r
          ensures Trim(u, text) == question
        {
          TrimOfPadded(u, l, question, r);
        }
      }
    }
  }
}
