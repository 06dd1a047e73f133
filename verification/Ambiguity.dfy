/** Rules and utterances on which the near-tie rule of find_match lets the exact phrase
    lose, or the more specific of two near-ties, and the order of the rules decide. */
module Ambiguity {
  import opened Literals
  import opened Matcher
  import opened Options
  import opened Ranking
  import opened Similarity
  import opened Slots
  import opened Templates
  import opened Text

  /** A word of n letters a. */
  function As(n: nat): string {
    seq(n, _ => 'a')
  }

  /** What is used of the tables: a and b are lower-case letters, and the space is its own
      lower case. */
  ghost predicate Plain(u: Unicode) {
    u.Lawful() && u.isAlnum('a') && u.lower('a') == 'a' && u.isAlnum('b') && u.lower('b') == 'b' && u.lower(' ') == ' '
  }

  predicate Letters(w: string) {
    w != "" && forall i :: 0 <= i < |w| ==> w[i] == 'a' || w[i] == 'b'
  }

  ghost predicate AllLetters(words: seq<string>) {
    forall w :: w in words ==> Letters(w)
  }

  predicate LettersAndSpaces(s: string) {
    forall i :: 0 <= i < |s| ==> s[i] == 'a' || s[i] == 'b' || s[i] == ' '
  }

  lemma {:induction false} JoinLetters(words: seq<string>)
    requires AllLetters(words)
    ensures LettersAndSpaces(Join(words))
  {
    if |words| == 1 {
      assert words[0] in words;
    } else if words != [] {
      JoinLetters(words[..|words| - 1]);
      assert words[|words| - 1] in words;
    }
  }

  lemma LowerLetters(u: Unicode, s: string)
    requires Plain(u) && LettersAndSpaces(s)
    ensures Lower(u, s) == s
  {
  }

  lemma SpokenLetters(u: Unicode, words: seq<string>)
    requires Plain(u) && AllLetters(words)
    ensures SpokenWords(u, Join(words)) == words && Words(u, Join(words)) == words
  {
    JoinLetters(words);
    LowerLetters(u, Join(words));
    assert u.isSpace(u.lower(' ')) && !u.isSpace('a') && !u.isSpace('b') && u.lower(' ') !in {'\'', '-'};
    forall w | w in words ensures IsWord(w, KeptBy(u)) && IsWord(w, NotSpace(u)) {
    }
    RunsOfJoin(words, KeptBy(u));
    RunsOfJoin(words, NotSpace(u));
  }

  /** The phrase reads like the utterance with some characters overwritten by c. */
  ghost predicate Misheard(words: seq<string>, spoken: seq<string>, c: char) {
    AllLetters(words) && AllLetters(spoken) && words != [] && Overwritten(Join(words), Join(spoken), c)
  }

  /** One part in the length less for each overwritten character. */
  function Share(k: nat, n: nat): real
    requires 0 < n
  {
    1.0 - k as real / n as real
  }

  /** What such a phrase scores; windows of the utterance do not help where there are
      none or the whole is at 0.95 already. */
  lemma PhraseScore(u: Unicode, words: seq<string>, spoken: seq<string>, c: char, k: nat, n: nat)
    requires Plain(u) && Misheard(words, spoken, c) && n == |Join(words)| > 0 && k == Count(Join(words), n, c)
    requires |spoken| <= |words| || Share(k, n) >= 0.95
    ensures LiteralScore(u, Join(words), Join(spoken)) == Share(k, n)
  {
    var phrase, utterance := Join(words), Join(spoken);
    SpokenLetters(u, words);
    SpokenLetters(u, spoken);
    OverwrittenDistance(phrase, utterance, c);
    SimilarityLaws(phrase, utterance);
    BestWindowRange(u, phrase, utterance);
    assert |spoken| <= |words| ==> BestWindow(u, phrase, utterance) == 0.0;
  }

  // ----- Three phrases -----

  function Once(n: nat): seq<string> {
    [As(n)]
  }

  function Twice(n: nat): seq<string>
    requires 3 <= n
  {
    [As(1), As(n - 2)]
  }

  function Thrice(n: nat): seq<string>
    requires 5 <= n
  {
    [As(1), As(1), As(n - 4)]
  }

  lemma JoinedTwice(a: string, b: string)
    ensures Join([a, b]) == a + " " + b
  {
    assert [a, b][..1] == [a];
  }

  lemma JoinedThrice(a: string, b: string, c: string)
    ensures Join([a, b, c]) == a + " " + b + " " + c
  {
    assert [a, b, c][..2] == [a, b];
    JoinedTwice(a, b);
  }

  lemma OneSpace(a: string, b: string, extra: nat)
    requires ' ' !in b && Count(a, |a|, ' ') == extra
    ensures Count(a + " " + b, |a + " " + b|, ' ') == extra + 1
  {
    CountAppend(a, " ", 1, ' ');
    assert Count(" ", 1, ' ') == 1 by {
      assert Count(" ", 0, ' ') == 0;
    }
    CountAppend(a + " ", b, |b|, ' ');
    CountNone(b, |b|, ' ');
  }

  predicate Counted(words: seq<string>, n: nat, c: char, k: nat) {
    |Join(words)| == n && Count(Join(words), n, c) == k
  }

  lemma SpacesCounted(n: nat)
    requires 5 <= n
    ensures Counted(Once(n), n, ' ', 0) && Counted(Twice(n), n, ' ', 1) && Counted(Thrice(n), n, ' ', 2)
  {
    var letter, rest, least := As(1), As(n - 2), As(n - 4);
    CountNone(As(n), n, ' ');
    CountNone(letter, 1, ' ');
    JoinedTwice(letter, rest);
    OneSpace(letter, rest, 0);
    JoinedThrice(letter, letter, least);
    OneSpace(letter, letter, 0);
    OneSpace(letter + " " + letter, least, 1);
  }

  // ----- The candidates -----

  function RuleFor(words: seq<string>): Rule {
    Rule("say", [Join(words)], [])
  }

  function MatchOf(words: seq<string>, skill: string, confidence: real): IntentMatch {
    IntentMatch("say", map[], skill, confidence, |words|)
  }

  lemma SlotlessLetters(words: seq<string>)
    requires AllLetters(words) && words != []
    ensures Split(Join(words)) == [Literal(Join(words))]
  {
    JoinLetters(words);
    assert Join(words) != "" by {
      assert words[0] in words;
    }
    SlotlessIff(Join(words));
  }

  lemma LiteralIs(t: Tables, phrase: string, rule: Rule, input: string, score: real, words: seq<string>)
    requires LiteralScore(t.u, phrase, input) == score
    requires SpokenWords(t.u, phrase) == words == Words(t.u, Join(words))
    ensures LiteralMatch(t, phrase, rule, input) == IntentMatch(rule.intent, map[], "", score, |words|)
  {
  }

  lemma LiteralCandidate(t: Tables, rule: Rule, skill: string, phrase: string, input: string)
    requires Split(phrase) == [Literal(phrase)]
    requires LiteralMatch(t, phrase, rule, input).confidence >= MATCH_THRESHOLD
    ensures CandidateOf(t, rule, skill, phrase, input) == [LiteralMatch(t, phrase, rule, input).(skill := skill)]
  {
  }

  lemma FlatOne<A, B>(x: A, gives: A -> seq<B>)
    ensures Flat([x], gives) == gives(x)
  {
    assert [x][..0] == [] && [] + gives(x) == gives(x);
  }

  /** A rule of one slot-less phrase that reaches the threshold. */
  lemma RuleCandidate(t: Tables, rule: Rule, skill: string, phrase: string, input: string, m: IntentMatch)
    requires rule.phrases == [phrase] && Split(phrase) == [Literal(phrase)]
    requires LiteralMatch(t, phrase, rule, input) == m && m.confidence >= MATCH_THRESHOLD
    ensures RuleYield(t, input)((rule, skill)) == [m.(skill := skill)]
  {
    LiteralCandidate(t, rule, skill, phrase, input);
    FlatOne(phrase, PhraseYield(t, rule, skill, input));
  }

  lemma PhraseMatch(t: Tables, words: seq<string>, spoken: seq<string>, c: char, k: nat, n: nat)
    requires Plain(t.u) && Misheard(words, spoken, c) && 0 < n && Counted(words, n, c, k)
    requires |spoken| <= |words| || Share(k, n) >= 0.95
    ensures LiteralMatch(t, Join(words), RuleFor(words), Join(spoken)) == MatchOf(words, "", Share(k, n))
  {
    PhraseScore(t.u, words, spoken, c, k, n);
    SpokenLetters(t.u, words);
    LiteralIs(t, Join(words), RuleFor(words), Join(spoken), Share(k, n), words);
  }

  lemma Candidate(t: Tables, words: seq<string>, spoken: seq<string>, c: char, k: nat, n: nat, skill: string)
    requires Plain(t.u) && Misheard(words, spoken, c) && 0 < n && Counted(words, n, c, k)
    requires Share(k, n) >= MATCH_THRESHOLD && (|spoken| <= |words| || Share(k, n) >= 0.95)
    ensures RuleYield(t, Join(spoken))((RuleFor(words), skill)) == [MatchOf(words, skill, Share(k, n))]
  {
    SlotlessLetters(words);
    PhraseMatch(t, words, spoken, c, k, n);
    RuleCandidate(t, RuleFor(words), skill, Join(words), Join(spoken), MatchOf(words, "", Share(k, n)));
  }

  lemma FlatThree<A, B>(x: A, y: A, z: A, gives: A -> seq<B>, a: B, b: B, c: B)
    requires gives(x) == [a] && gives(y) == [b] && gives(z) == [c]
    ensures Flat([x, y, z], gives) == [a, b, c]
  {
    FlatOne(x, gives);
    assert [x, y, z][..2] == [x, y] && [x, y][..1] == [x];
    assert Flat([x, y], gives) == [a, b];
  }

  lemma Parts(n: nat)
    requires 21 <= n < 40
    ensures 0.0 < 1.0 / n as real < 0.05 < 2.0 / n as real < 0.1
  {
    var one, two := 1.0 / n as real, 2.0 / n as real;
    assert one * n as real == 1.0 && two * n as real == 2.0;
  }

  lemma Spelled(n: nat)
    requires 5 <= n
    ensures Misheard(Once(n), Once(n), ' ') && Misheard(Twice(n), Once(n), ' ') && Misheard(Thrice(n), Once(n), ' ')
    ensures Join(Once(n)) == As(n)
  {
    JoinedTwice(As(1), As(n - 2));
    JoinedThrice(As(1), As(1), As(n - 4));
  }

  function First(n: nat): IntentMatch
    requires 5 <= n
  {
    MatchOf(Once(n), "once", Share(0, n))
  }

  function Second(n: nat): IntentMatch
    requires 5 <= n
  {
    MatchOf(Twice(n), "twice", Share(1, n))
  }

  function Third(n: nat): IntentMatch
    requires 5 <= n
  {
    MatchOf(Thrice(n), "thrice", Share(2, n))
  }

  lemma ThreeCandidates(t: Tables, n: nat)
    requires Plain(t.u) && 21 <= n < 40
    ensures RuleYield(t, As(n))((RuleFor(Once(n)), "once")) == [First(n)]
    ensures RuleYield(t, As(n))((RuleFor(Twice(n)), "twice")) == [Second(n)]
    ensures RuleYield(t, As(n))((RuleFor(Thrice(n)), "thrice")) == [Third(n)]
  {
    SpacesCounted(n);
    Spelled(n);
    Parts(n);
    Candidate(t, Once(n), Once(n), ' ', 0, n, "once");
    Candidate(t, Twice(n), Once(n), ' ', 1, n, "twice");
    Candidate(t, Thrice(n), Once(n), ' ', 2, n, "thrice");
  }

  lemma TwoTies(n: nat)
    requires 21 <= n < 40
    ensures Tied(First(n), Second(n)) && Tied(Second(n), Third(n))
    ensures First(n).specificity < Second(n).specificity < Third(n).specificity
    ensures First(n).confidence == 1.0 > Third(n).confidence + SPECIFICITY_EPSILON
  {
    Parts(n);
  }

  /** Three rules with one candidate each, in both orders. */
  lemma BothOrders(t: Tables, input: string, locale: string, x: (Rule, string), y: (Rule, string), z: (Rule, string),
                   a: IntentMatch, b: IntentMatch, c: IntentMatch)
    requires RuleYield(t, input)(x) == [a] && RuleYield(t, input)(y) == [b] && RuleYield(t, input)(z) == [c]
    requires Tied(a, b) && Tied(b, c) && a.specificity < b.specificity < c.specificity
    requires a.confidence > c.confidence + SPECIFICITY_EPSILON
    ensures Matched(t, input, locale, map[locale := [x, y, z]]) == Some(c)
    ensures Matched(t, input, locale, map[locale := [z, y, x]]) == Some(a)
  {
    FlatThree(x, y, z, RuleYield(t, input), a, b, c);
    FlatThree(z, y, x, RuleYield(t, input), c, b, a);
    TiesAreNotTransitive(a, b, c);
  }

  /** The utterance is letter for letter the phrase of the first rule, which scores 1.
      Listed before two near-ties of growing specificity it loses to the last of them,
      which it beats by more than the band; listed after them it wins. */
  lemma ExactPhraseLoses(t: Tables, locale: string, n: nat)
    requires Plain(t.u) && 21 <= n < 40
    ensures var once, twice := (RuleFor(Once(n)), "once"), (RuleFor(Twice(n)), "twice");
            var thrice := (RuleFor(Thrice(n)), "thrice");
            && Matched(t, As(n), locale, map[locale := [once, twice, thrice]]) == Some(Third(n))
            && Matched(t, As(n), locale, map[locale := [thrice, twice, once]]) == Some(First(n))
    ensures First(n).confidence == 1.0 > Third(n).confidence + SPECIFICITY_EPSILON
  {
    ThreeCandidates(t, n);
    TwoTies(n);
    BothOrders(t, As(n), locale, (RuleFor(Once(n)), "once"), (RuleFor(Twice(n)), "twice"),
               (RuleFor(Thrice(n)), "thrice"), First(n), Second(n), Third(n));
  }

  // ----- A more specific near-tie loses -----

  function Bs(n: nat): string {
    seq(n, _ => 'b')
  }

  /** Three words of n characters, the first k letters of the last one overwritten. */
  function Blurred(k: nat, n: nat): seq<string>
    requires k + 5 <= n
  {
    [As(1), As(1), Bs(k) + As(n - 4 - k)]
  }

  /** The same characters with both spaces overwritten, and two more. */
  function Merged(n: nat): seq<string>
    requires 7 <= n
  {
    [As(1) + Bs(1) + As(1) + Bs(3) + As(n - 6)]
  }

  lemma {:induction false} CountBs(n: nat)
    ensures Count(Bs(n), n, 'b') == n
  {
    if n != 0 {
      CountBs(n - 1);
      assert Bs(n) == Bs(n - 1) + ['b'];
      CountPrefix(Bs(n - 1), ['b'], n - 1, 'b');
    }
  }

  /** k more of them after text that holds extra. */
  lemma MoreBs(s: string, k: nat, m: nat, extra: nat)
    requires Count(s, |s|, 'b') == extra
    ensures Count(s + Bs(k) + As(m), |s| + k + m, 'b') == extra + k
  {
    CountBs(k);
    CountAppend(s, Bs(k), k, 'b');
    CountNone(As(m), m, 'b');
    CountAppend(s + Bs(k), As(m), m, 'b');
  }

  lemma BlurredCounted(k: nat, n: nat)
    requires k + 5 <= n
    ensures Counted(Blurred(k, n), n, 'b', k)
    ensures Join(Blurred(k, n)) == As(1) + " " + As(1) + " " + Bs(k) + As(n - 4 - k)
  {
    var head := As(1) + " " + As(1) + " ";
    JoinedThrice(As(1), As(1), Bs(k) + As(n - 4 - k));
    assert head + Bs(k) + As(n - 4 - k) == head + (Bs(k) + As(n - 4 - k));
    CountNone(head, |head|, 'b');
    MoreBs(head, k, n - 4 - k, 0);
  }

  lemma MergedCounted(n: nat)
    requires 7 <= n
    ensures Counted(Merged(n), n, 'b', 4)
    ensures Join(Merged(n)) == As(1) + Bs(1) + As(1) + Bs(3) + As(n - 6)
  {
    var one := As(1) + Bs(1) + As(1);
    CountNone(As(1), 1, 'b');
    MoreBs(As(1), 1, 1, 0);
    MoreBs(one, 3, n - 6, 1);
  }

  lemma BlurredMisheard(k: nat, n: nat)
    requires k + 5 <= n
    ensures Misheard(Blurred(k, n), Blurred(0, n), 'b')
  {
    BlurredCounted(k, n);
    BlurredCounted(0, n);
  }

  lemma MergedMisheard(n: nat)
    requires 7 <= n
    ensures Misheard(Merged(n), Blurred(0, n), 'b')
  {
    MergedCounted(n);
    BlurredCounted(0, n);
    assert Join(Blurred(0, n))[1] == ' ' && Join(Blurred(0, n))[3] == ' ';
  }

  lemma Tenths(n: nat)
    requires 80 < n < 120
    ensures var p := 1.0 / n as real; 0.0 < 4.0 * p < 0.05 && 3.0 * p < 0.05 < 6.0 * p && 10.0 * p < 0.125
    ensures forall k: nat {:trigger Share(k, n)} :: Share(k, n) == 1.0 - k as real * (1.0 / n as real)
  {
    var p := 1.0 / n as real;
    assert p * n as real == 1.0;
  }

  function Least(n: nat): IntentMatch
    requires 80 < n
  {
    MatchOf(Blurred(10, n), "least", Share(10, n))
  }

  function Middle(n: nat): IntentMatch
    requires 80 < n
  {
    MatchOf(Blurred(7, n), "middle", Share(7, n))
  }

  function Nearest(n: nat): IntentMatch
    requires 80 < n
  {
    MatchOf(Merged(n), "nearest", Share(4, n))
  }

  lemma ThreeBlurred(t: Tables, n: nat)
    requires Plain(t.u) && 80 < n < 120
    ensures RuleYield(t, Join(Blurred(0, n)))((RuleFor(Blurred(10, n)), "least")) == [Least(n)]
    ensures RuleYield(t, Join(Blurred(0, n)))((RuleFor(Blurred(7, n)), "middle")) == [Middle(n)]
    ensures RuleYield(t, Join(Blurred(0, n)))((RuleFor(Merged(n)), "nearest")) == [Nearest(n)]
  {
    Tenths(n);
    BlurredCounted(10, n);
    BlurredMisheard(10, n);
    Candidate(t, Blurred(10, n), Blurred(0, n), 'b', 10, n, "least");
    BlurredCounted(7, n);
    BlurredMisheard(7, n);
    Candidate(t, Blurred(7, n), Blurred(0, n), 'b', 7, n, "middle");
    MergedCounted(n);
    MergedMisheard(n);
    Candidate(t, Merged(n), Blurred(0, n), 'b', 4, n, "nearest");
  }

  /** Three phrases at 10, 7 and 4 overwritten characters, the nearest of a single word.
      In one order it wins over a phrase of three words that ties with it; in another
      that phrase wins. Near-ties cost no more than the band here. */
  lemma SpecificPhraseLoses(t: Tables, locale: string, n: nat)
    requires Plain(t.u) && 80 < n < 120
    ensures var least, middle := (RuleFor(Blurred(10, n)), "least"), (RuleFor(Blurred(7, n)), "middle");
            var nearest, input := (RuleFor(Merged(n)), "nearest"), Join(Blurred(0, n));
            && Matched(t, input, locale, map[locale := [least, middle, nearest]]) == Some(Nearest(n))
            && Matched(t, input, locale, map[locale := [middle, least, nearest]]) == Some(Middle(n))
    ensures Tied(Middle(n), Nearest(n)) && Middle(n).specificity > Nearest(n).specificity
    ensures TiesClosed([Least(n), Middle(n), Nearest(n)])
  {
    var least, middle := (RuleFor(Blurred(10, n)), "least"), (RuleFor(Blurred(7, n)), "middle");
    var nearest, gives := (RuleFor(Merged(n)), "nearest"), RuleYield(t, Join(Blurred(0, n)));
    ThreeBlurred(t, n);
    Tenths(n);
    SpecificTieLoses(Least(n), Middle(n), Nearest(n));
    FlatThree(least, middle, nearest, gives, Least(n), Middle(n), Nearest(n));
    FlatThree(middle, least, nearest, gives, Middle(n), Least(n), Nearest(n));
  }
}
