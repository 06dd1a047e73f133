/** The intent matcher: one phrase, then every phrase of every rule of a locale. */
module Matcher {
  import opened Literals
  import opened Options
  import opened Ranking
  import opened Similarity
  import opened Slots
  import opened Templates
  import opened Text

  datatype Rule = Rule(intent: string, phrases: seq<string>, slots: seq<SlotSpec>)

  /** A locale's rules, each with the skill that owns it. */
  type RuleIndex = map<string, seq<(Rule, string)>>

  function LiteralMatch(t: Tables, lit: string, rule: Rule, input: string): IntentMatch {
    IntentMatch(rule.intent, map[], "", LiteralScore(t.u, lit, input), |Words(t.u, Join(SpokenWords(t.u, lit)))|)
  }

  function TemplateMatch(t: Tables, rule: Rule, input: string, e: Extraction): IntentMatch {
    IntentMatch(rule.intent, e.slots, "", Normalized(Lower(t.u, e.filled), Lower(t.u, input)), |Words(t.u, e.filled)|)
  }

  function TryMatch(t: Tables, phrase: string, rule: Rule, input: string): Option<IntentMatch> {
    var segs := Split(phrase);
    if |segs| == 1 && segs[0].Literal? then Some(LiteralMatch(t, segs[0].text, rule, input))
    else
      var e := ExtractionOf(WalkTo(t, rule.slots, segs, input, |segs|));
      if e.None? then None else Some(TemplateMatch(t, rule, input, e.value))
  }

  method TryMatchPhrase(t: Tables, phrase: string, rule: Rule, input: string) returns (r: Option<IntentMatch>)
    ensures r == TryMatch(t, phrase, rule, input)
  {
    var segs := SplitPhrase(phrase);
    if |segs| == 1 && segs[0].Literal? {
      var lit := NormalizeLiteral(t.u, segs[0].text);
      var spoken := NormalizeLiteral(t.u, input);
      var whole := Normalized(lit, spoken);
      var window := BestWindowSimilarity(t.u, lit, spoken);
      return Some(IntentMatch(rule.intent, map[], "", Max(whole, window * 0.95), |Words(t.u, lit)|));
    }
    var e := Walk(t, rule.slots, segs, input);
    if e.None? {
      return None;
    }
    var sim := Normalized(Lower(t.u, e.value.filled), Lower(t.u, input));
    return Some(IntentMatch(rule.intent, e.value.slots, "", sim, |Words(t.u, e.value.filled)|));
  }

  /** The match of one phrase, if it reaches the threshold. */
  function CandidateOf(t: Tables, rule: Rule, skill: string, phrase: string, input: string): seq<IntentMatch> {
    var m := TryMatch(t, phrase, rule, input);
    if m.Some? && m.value.confidence >= MATCH_THRESHOLD then [m.value.(skill := skill)] else []
  }

  /** The concatenation of what each element gives. */
  function Flat<A, B>(xs: seq<A>, gives: A -> seq<B>): seq<B> {
    if xs == [] then [] else Flat(xs[..|xs| - 1], gives) + gives(xs[|xs| - 1])
  }

  lemma FlatStep<A, B>(xs: seq<A>, gives: A -> seq<B>, k: nat)
    requires k < |xs|
    ensures Flat(xs[..k + 1], gives) == Flat(xs[..k], gives) + gives(xs[k])
  {
    assert xs[..k + 1][..k] == xs[..k];
  }

  lemma {:induction false} FlatEmpty<A, B>(xs: seq<A>, gives: A -> seq<B>)
    ensures Flat(xs, gives) == [] <==> forall i :: 0 <= i < |xs| ==> gives(xs[i]) == []
  {
    if xs != [] {
      FlatEmpty(xs[..|xs| - 1], gives);
    }
  }

  lemma {:induction false} FlatHas<A, B>(xs: seq<A>, gives: A -> seq<B>, k: nat, x: B)
    requires k < |xs| && x in gives(xs[k])
    ensures x in Flat(xs, gives)
  {
    if k < |xs| - 1 {
      FlatHas(xs[..|xs| - 1], gives, k, x);
    }
  }

  function PhraseYield(t: Tables, rule: Rule, skill: string, input: string): string -> seq<IntentMatch> {
    (phrase: string) => CandidateOf(t, rule, skill, phrase, input)
  }

  function RuleCandidates(t: Tables, rule: Rule, skill: string, input: string): seq<IntentMatch> {
    Flat(rule.phrases, PhraseYield(t, rule, skill, input))
  }

  function RuleYield(t: Tables, input: string): ((Rule, string)) -> seq<IntentMatch> {
    (r: (Rule, string)) => RuleCandidates(t, r.0, r.1, input)
  }

  function Candidates(t: Tables, rules: seq<(Rule, string)>, input: string): seq<IntentMatch> {
    Flat(rules, RuleYield(t, input))
  }

  function Matched(t: Tables, text: string, locale: string, index: RuleIndex): Option<IntentMatch> {
    if locale !in index then None else Best(Candidates(t, index[locale], text))
  }

  method FindMatch(t: Tables, text: string, locale: string, index: RuleIndex) returns (best: Option<IntentMatch>)
    ensures best == Matched(t, text, locale, index)
  {
    if locale !in index {
      return None;
    }
    var rules := index[locale];
    best := None;
    for i := 0 to |rules|
      invariant best == Best(Flat(rules[..i], RuleYield(t, text)))
    {
      FlatStep(rules, RuleYield(t, text), i);
      best := ScanRule(t, rules[i].0, rules[i].1, text, best, Flat(rules[..i], RuleYield(t, text)));
    }
    assert rules[..|rules|] == rules;
  }

  lemma SeenGrows(phrases: seq<string>, gives: string -> seq<IntentMatch>, j: nat, before: seq<IntentMatch>,
                  more: seq<IntentMatch>)
    requires j < |phrases| && gives(phrases[j]) == more
    ensures before + Flat(phrases[..j], gives) + more == before + Flat(phrases[..j + 1], gives)
  {
    FlatStep(phrases, gives, j);
  }

  method ScanRule(t: Tables, rule: Rule, skill: string, text: string, so: Option<IntentMatch>,
                  ghost before: seq<IntentMatch>)
    returns (best: Option<IntentMatch>)
    requires so == Best(before)
    ensures best == Best(before + RuleCandidates(t, rule, skill, text))
  {
    best := so;
    assert before + [] == before;
    ghost var gives := PhraseYield(t, rule, skill, text);
    for j := 0 to |rule.phrases|
      invariant best == Best(before + Flat(rule.phrases[..j], gives))
    {
      best := Consider(t, rule, skill, rule.phrases[j], text, best, before + Flat(rule.phrases[..j], gives));
      SeenGrows(rule.phrases, gives, j, before, CandidateOf(t, rule, skill, rule.phrases[j], text));
    }
    assert rule.phrases[..|rule.phrases|] == rule.phrases;
  }

  /** The innermost body: one phrase against the best so far. */
  method Consider(t: Tables, rule: Rule, skill: string, phrase: string, text: string, so: Option<IntentMatch>,
                  ghost seen: seq<IntentMatch>)
    returns (best: Option<IntentMatch>)
    requires so == Best(seen)
    ensures best == Best(seen + CandidateOf(t, rule, skill, phrase, text))
  {
    best := so;
    assert seen + [] == seen;
    var candidate := TryMatchPhrase(t, phrase, rule, text);
    if candidate.Some? && candidate.value.confidence >= MATCH_THRESHOLD {
      var withSkill := candidate.value.(skill := skill);
      BestStep(seen, withSkill);
      if best.None? || Better(withSkill, best.value) {
        best := Some(withSkill);
      }
    }
  }

  // ----- When something matches -----

  predicate PhraseReaches(t: Tables, rule: Rule, phrase: string, input: string) {
    var m := TryMatch(t, phrase, rule, input);
    m.Some? && m.value.confidence >= MATCH_THRESHOLD
  }

  /** Phrase k of rule i reaches the threshold for this utterance. */
  predicate Reaches(t: Tables, rules: seq<(Rule, string)>, input: string, i: nat, k: nat) {
    && i < |rules| && k < |rules[i].0.phrases|
    && PhraseReaches(t, rules[i].0, rules[i].0.phrases[k], input)
  }

  lemma CandidateIff(t: Tables, rule: Rule, skill: string, phrase: string, input: string)
    ensures PhraseYield(t, rule, skill, input)(phrase) == [] <==> !PhraseReaches(t, rule, phrase, input)
  {
  }

  lemma NoneInRule(t: Tables, rule: Rule, skill: string, input: string)
    ensures RuleYield(t, input)((rule, skill)) == [] <==>
            forall k :: 0 <= k < |rule.phrases| ==> !PhraseReaches(t, rule, rule.phrases[k], input)
  {
    FlatEmpty(rule.phrases, PhraseYield(t, rule, skill, input));
    forall k | 0 <= k < |rule.phrases|
      ensures PhraseYield(t, rule, skill, input)(rule.phrases[k]) == [] <==>
              !PhraseReaches(t, rule, rule.phrases[k], input)
    {
      CandidateIff(t, rule, skill, rule.phrases[k], input);
    }
  }

  /** Nothing is returned exactly when no phrase of the locale reaches the threshold. */
  lemma NothingIffNoneReaches(t: Tables, text: string, locale: string, index: RuleIndex)
    ensures Matched(t, text, locale, index).None? <==>
            locale !in index || forall i, k :: !Reaches(t, index[locale], text, i, k)
  {
    if locale in index {
      var rules := index[locale];
      FlatEmpty(rules, RuleYield(t, text));
      forall i | 0 <= i < |rules|
        ensures RuleYield(t, text)(rules[i]) == [] <==> forall k: nat :: !Reaches(t, rules, text, i, k)
      {
        NoneInRule(t, rules[i].0, rules[i].1, text);
        assert rules[i] == (rules[i].0, rules[i].1);
        assert forall k: nat :: Reaches(t, rules, text, i, k) <==>
                 k < |rules[i].0.phrases| && PhraseReaches(t, rules[i].0, rules[i].0.phrases[k], text);
      }
    }
  }

  /** Padded speech always matches: whatever is said before and after a slot-less phrase,
      set apart from it, some rule is found. */
  lemma PaddedSpeechMatches(t: Tables, locale: string, index: RuleIndex, i: nat, k: nat, pre: string, post: string)
    requires t.u.Lawful() && locale in index && i < |index[locale]| && k < |index[locale][i].0.phrases|
    requires var phrase := index[locale][i].0.phrases[k];
             '{' !in phrase && SpokenWords(t.u, phrase) != []
    requires PadBefore(t.u, pre) && PadAfter(t.u, post)
    ensures Matched(t, pre + index[locale][i].0.phrases[k] + post, locale, index).Some?
  {
    var rule, phrase := index[locale][i].0, index[locale][i].0.phrases[k];
    SlotlessIff(phrase);
    PaddedSpeechScores(t.u, pre, phrase, post);
    assert Reaches(t, index[locale], pre + phrase + post, i, k);
    NothingIffNoneReaches(t, pre + phrase + post, locale, index);
  }

  /** In particular with arbitrary text on both sides, separated by spaces. */
  lemma SpacesSetApart(u: Unicode, before: string, after: string)
    requires u.Lawful()
    ensures PadBefore(u, before + " ") && PadAfter(u, " " + after)
  {
    assert u.isSpace(u.lower(' ')) && u.lower(' ') !in {'\'', '-'};
  }

  /** The match a filled template gives. */
  function FilledMatch(t: Tables, rule: Rule, skill: string, phrase: string, texts: seq<string>, at: seq<nat>)
    : IntentMatch
    requires |Split(phrase)| == |texts| < |at|
  {
    IntentMatch(rule.intent, SlotMap(Recorded(Split(phrase), texts, at, |Split(phrase)|)), skill, 1.0,
                |Words(t.u, Rebuilt(Split(phrase), texts, |Split(phrase)|))|)
  }

  /** A filled template is found with confidence 1, its slots holding the values put in. */
  lemma FilledTemplateMatches(t: Tables, phrase: string, rule: Rule, texts: seq<string>, input: string, at: seq<nat>)
    requires Fillable(t, rule.slots, Split(phrase), texts, input, at)
    requires !(|Split(phrase)| == 1 && Split(phrase)[0].Literal?)
    ensures var m := TryMatch(t, phrase, rule, input);
            m.Some? && m.value.confidence == 1.0
            && m.value == FilledMatch(t, rule, "", phrase, texts, at)
  {
    ExtractionUndoesFilling(t, rule.slots, Split(phrase), texts, input, at);
    SimilarityLaws(Lower(t.u, input), Lower(t.u, input));
  }

  /** When an utterance fills a rule's template, that match, with confidence 1, is among
      the candidates. So what is returned is below 1 by at most one band and one more for
      each tie replacement, and it is that match if every other candidate is below 0.95. */
  lemma FilledTemplateWins(t: Tables, locale: string, index: RuleIndex, i: nat, k: nat, texts: seq<string>,
                           input: string, at: seq<nat>)
    requires locale in index && i < |index[locale]| && k < |index[locale][i].0.phrases|
    requires var (rule, phrase) := (index[locale][i].0, index[locale][i].0.phrases[k]);
             && Fillable(t, rule.slots, Split(phrase), texts, input, at)
             && !(|Split(phrase)| == 1 && Split(phrase)[0].Literal?)
    ensures var (rule, skill) := index[locale][i];
            var cs := Candidates(t, index[locale], input);
            var m := FilledMatch(t, rule, skill, rule.phrases[k], texts, at);
            && Matched(t, input, locale, index).Some?
            && Matched(t, input, locale, index).value.confidence
               >= 1.0 - SPECIFICITY_EPSILON * (1 + TieReplacements(cs)) as real
            && ((forall x :: x in cs && x != m ==> x.confidence < 1.0 - SPECIFICITY_EPSILON) ==>
                 Matched(t, input, locale, index) == Some(m))
  {
    var (rule, skill) := index[locale][i];
    var phrase, cs := rule.phrases[k], Candidates(t, index[locale], input);
    var m := FilledMatch(t, rule, skill, phrase, texts, at);
    FilledTemplateMatches(t, phrase, rule, texts, input, at);
    assert CandidateOf(t, rule, skill, phrase, input) == [m];
    FlatHas(rule.phrases, PhraseYield(t, rule, skill, input), k, m);
    assert index[locale][i] == (rule, skill);
    FlatHas(index[locale], RuleYield(t, input), i, m);
    var j :| 0 <= j < |cs| && cs[j] == m;
    WinnerNearMaximum(cs, j);
    if forall x :: x in cs && x != m ==> x.confidence < 1.0 - SPECIFICITY_EPSILON {
      ClearMatchWins(cs, m);
    }
  }

  /** Every confidence is in [0, 1]; a template reaches 1 exactly when what it was filled
      with reads, up to case, like the whole utterance. */
  lemma ConfidenceRange(t: Tables, phrase: string, rule: Rule, input: string)
    requires TryMatch(t, phrase, rule, input).Some?
    ensures 0.0 <= TryMatch(t, phrase, rule, input).value.confidence <= 1.0
    ensures var segs := Split(phrase);
            !(|segs| == 1 && segs[0].Literal?) ==>
              (TryMatch(t, phrase, rule, input).value.confidence == 1.0 <==>
               Lower(t.u, WalkTo(t, rule.slots, segs, input, |segs|).value.filled) == Lower(t.u, input))
  {
    var segs := Split(phrase);
    if |segs| == 1 && segs[0].Literal? {
      FullScoreIffSameWords(t.u, segs[0].text, input);
    } else {
      SimilarityLaws(Lower(t.u, WalkTo(t, rule.slots, segs, input, |segs|).value.filled), Lower(t.u, input));
    }
  }

  lemma {:induction false} FlatOnly<A, B>(xs: seq<A>, gives: A -> seq<B>, x: B) returns (k: nat)
    requires x in Flat(xs, gives)
    ensures k < |xs| && x in gives(xs[k])
  {
    if x in gives(xs[|xs| - 1]) {
      k := |xs| - 1;
    } else {
      k := FlatOnly(xs[..|xs| - 1], gives, x);
    }
  }

  /** The match of phrase k of rule i, with the rule's intent and its owner. */
  ghost predicate GivenBy(t: Tables, rules: seq<(Rule, string)>, input: string, i: nat, k: nat, m: IntentMatch) {
    && Reaches(t, rules, input, i, k)
    && m == TryMatch(t, rules[i].0.phrases[k], rules[i].0, input).value.(skill := rules[i].1)
    && m.intent == rules[i].0.intent && m.skill == rules[i].1 && m.confidence >= 0.8
  }

  /** Whatever is returned is the match of some phrase of the locale that reaches 0.8,
      under its rule's intent and for the skill that owns the rule. */
  lemma MatchComesFromARule(t: Tables, text: string, locale: string, index: RuleIndex)
    requires Matched(t, text, locale, index).Some?
    ensures locale in index
    ensures exists i, k :: GivenBy(t, index[locale], text, i, k, Matched(t, text, locale, index).value)
  {
    var rules, m := index[locale], Matched(t, text, locale, index).value;
    var i := FlatOnly(rules, RuleYield(t, text), m);
    var k := FlatOnly(rules[i].0.phrases, PhraseYield(t, rules[i].0, rules[i].1, text), m);
    assert GivenBy(t, rules, text, i, k, m);
  }

  /** A slot-less phrase fills no slot, and counts for as many words as it has. */
  lemma SlotlessMatch(t: Tables, phrase: string, rule: Rule, input: string)
    requires t.u.Lawful() && phrase != "" && '{' !in phrase
    ensures var m := TryMatch(t, phrase, rule, input);
            m.Some? && m.value.slots == map[] && m.value.specificity == |SpokenWords(t.u, phrase)|
            && m.value.confidence == LiteralScore(t.u, phrase, input)
  {
    SlotlessIff(phrase);
    SpokenWordsAreWords(t.u, phrase);
  }
}
