/** Choosing among the candidates of an utterance: the higher confidence wins, but
    within a small band the more specific phrase does. The band makes the comparison
    intransitive, so what the choice guarantees has to be said with care. */
module Ranking {
  import opened Options

  const MATCH_THRESHOLD: real := 0.8
  const SPECIFICITY_EPSILON: real := 0.05

  datatype IntentMatch = IntentMatch(
    intent: string,
    slots: map<string, Option<string>>,
    skill: string,
    confidence: real,
    specificity: nat)

  predicate Tied(a: IntentMatch, b: IntentMatch) {
    -SPECIFICITY_EPSILON <= a.confidence - b.confidence <= SPECIFICITY_EPSILON
  }

  predicate Better(c: IntentMatch, best: IntentMatch) {
    if Tied(c, best) then c.specificity > best.specificity else c.confidence > best.confidence
  }

  /** Where the choice stands after all of cs. */
  function Winner(cs: seq<IntentMatch>): (w: nat)
    requires cs != []
    ensures w < |cs|
  {
    if |cs| == 1 then 0
    else
      var b := Winner(cs[..|cs| - 1]);
      if Better(cs[|cs| - 1], cs[b]) then |cs| - 1 else b
  }

  function Best(cs: seq<IntentMatch>): Option<IntentMatch> {
    if cs == [] then None else Some(cs[Winner(cs)])
  }

  /** How often a candidate took over although it was not clearly more confident. */
  function TieReplacements(cs: seq<IntentMatch>): nat {
    if |cs| <= 1 then 0
    else
      var init, c := cs[..|cs| - 1], cs[|cs| - 1];
      TieReplacements(init) + if Better(c, init[Winner(init)]) && Tied(c, init[Winner(init)]) then 1 else 0
  }

  lemma BestStep(cs: seq<IntentMatch>, c: IntentMatch)
    ensures Best(cs + [c]) == if cs == [] || Better(c, Best(cs).value) then Some(c) else Best(cs)
  {
    assert (cs + [c])[..|cs|] == cs;
  }

  lemma BestOfThree(a: IntentMatch, b: IntentMatch, c: IntentMatch)
    ensures var two := if Better(b, a) then b else a;
            Best([a, b, c]) == Some(if Better(c, two) then c else two)
  {
    BestStep([], a);
    BestStep([a], b);
    BestStep([a, b], c);
    assert [] + [a] == [a] && [a] + [b] == [a, b] && [a, b] + [c] == [a, b, c];
  }

  /** A candidate that beats every other by more than the band always wins, wherever
      it stands. */
  lemma {:induction false} ClearWinnerWins(cs: seq<IntentMatch>, i: nat)
    requires i < |cs|
    requires forall j :: 0 <= j < |cs| && j != i ==> cs[i].confidence > cs[j].confidence + SPECIFICITY_EPSILON
    ensures Winner(cs) == i
  {
    if |cs| > 1 {
      var init := cs[..|cs| - 1];
      if i < |init| {
        ClearWinnerWins(init, i);
      }
    }
  }

  /** The same for a match that several phrases may have given alike. */
  lemma {:induction false} ClearMatchWins(cs: seq<IntentMatch>, m: IntentMatch)
    requires m in cs && forall x :: x in cs && x != m ==> m.confidence > x.confidence + SPECIFICITY_EPSILON
    ensures Best(cs) == Some(m)
  {
    if |cs| > 1 && m in cs[..|cs| - 1] {
      ClearMatchWins(cs[..|cs| - 1], m);
    } else {
      assert cs[|cs| - 1] == m;
    }
  }

  ghost predicate EarliestMostSpecific(cs: seq<IntentMatch>, w: nat) {
    && w < |cs|
    && (forall i :: 0 <= i < |cs| ==> cs[i].specificity <= cs[w].specificity)
    && (forall i :: 0 <= i < w ==> cs[i].specificity < cs[w].specificity)
  }

  /** When all candidates tie pairwise, the earliest of the most specific wins. */
  lemma {:induction false} AllTiedPicksMostSpecific(cs: seq<IntentMatch>)
    requires cs != []
    requires forall i, j :: 0 <= i < |cs| && 0 <= j < |cs| ==> Tied(cs[i], cs[j])
    ensures EarliestMostSpecific(cs, Winner(cs))
  {
    if |cs| > 1 {
      AllTiedPicksMostSpecific(cs[..|cs| - 1]);
    }
  }

  lemma BandGrows(n: nat)
    ensures SPECIFICITY_EPSILON * (1 + (n + 1)) as real == SPECIFICITY_EPSILON * (1 + n) as real + SPECIFICITY_EPSILON
    ensures SPECIFICITY_EPSILON <= SPECIFICITY_EPSILON * (1 + n) as real
  {
  }

  /** Each tie replacement costs at most one band of confidence: the winner is never
      further below the maximum than that. */
  lemma {:induction false} WinnerNearMaximum(cs: seq<IntentMatch>, i: nat)
    requires i < |cs|
    ensures cs[Winner(cs)].confidence >= cs[i].confidence - SPECIFICITY_EPSILON * (1 + TieReplacements(cs)) as real
  {
    if |cs| > 1 {
      var init := cs[..|cs| - 1];
      var b := init[Winner(init)];
      BandGrows(TieReplacements(init));
      if i < |init| {
        WinnerNearMaximum(init, i);
      }
    }
  }

  // ----- When the winner is never beaten by more than the band -----

  ghost predicate NotBeaten(cs: seq<IntentMatch>)
    requires cs != []
  {
    forall i :: 0 <= i < |cs| ==> cs[i].confidence <= cs[Winner(cs)].confidence + SPECIFICITY_EPSILON
  }

  /** Two ties in a row, the second to a more specific candidate, do not lead down by
      more than the band. */
  ghost predicate TieClosed(a: IntentMatch, b: IntentMatch, c: IntentMatch) {
    Tied(a, b) && Tied(b, c) && a.specificity <= b.specificity < c.specificity ==>
      a.confidence <= c.confidence + SPECIFICITY_EPSILON
  }

  ghost predicate TiesClosed(pool: seq<IntentMatch>) {
    forall a, b, c :: a in pool && b in pool && c in pool ==> TieClosed(a, b, c)
  }

  /** y cannot embarrass the winner w: not above the band, and no more specific inside it. */
  predicate Settled(y: IntentMatch, w: IntentMatch) {
    && y.confidence <= w.confidence + SPECIFICITY_EPSILON
    && (w.confidence - SPECIFICITY_EPSILON <= y.confidence ==> y.specificity <= w.specificity)
  }

  /** Some candidate seen is at least as confident as x and settled under w. */
  ghost predicate Supported(cs: seq<IntentMatch>, x: IntentMatch, w: IntentMatch) {
    exists j :: 0 <= j < |cs| && x.confidence <= cs[j].confidence && Settled(cs[j], w)
  }

  /** One comparison, value by value. */
  lemma SupportMoves(x: IntentMatch, y: IntentMatch, b: IntentMatch, c: IntentMatch)
    requires x.confidence <= y.confidence && Settled(y, b) && TieClosed(y, b, c)
    ensures var w := if Better(c, b) then c else b;
            || Settled(y, w)
            || (x.confidence <= b.confidence && Settled(b, w))
            || x.confidence <= w.confidence
  {
  }

  lemma SupportStep(cs: seq<IntentMatch>, i: nat, b: nat, w: nat)
    requires cs != [] && i < |cs| && b < |cs| - 1 && w == (if Better(cs[|cs| - 1], cs[b]) then |cs| - 1 else b)
    requires TiesClosed(cs) && (i < |cs| - 1 ==> Supported(cs[..|cs| - 1], cs[i], cs[b]))
    ensures Supported(cs, cs[i], cs[w])
  {
    var init, c := cs[..|cs| - 1], cs[|cs| - 1];
    if i < |init| {
      var j :| 0 <= j < |init| && cs[i].confidence <= init[j].confidence && Settled(init[j], cs[b]);
      assert cs[j] in cs && cs[b] in cs && c in cs;
      SupportMoves(cs[i], cs[j], cs[b], c);
      assert Settled(cs[w], cs[w]);
    } else if w == |cs| - 1 {
      assert Settled(c, cs[w]);
    } else {
      assert Settled(c, cs[b]);
    }
  }

  lemma {:induction false} ClosedTiesSupport(cs: seq<IntentMatch>, i: nat)
    requires i < |cs| && TiesClosed(cs)
    ensures Supported(cs, cs[i], cs[Winner(cs)])
  {
    if |cs| == 1 {
      assert Settled(cs[0], cs[0]);
    } else {
      var init := cs[..|cs| - 1];
      assert forall x :: x in init ==> x in cs;
      if i < |init| {
        ClosedTiesSupport(init, i);
      }
      SupportStep(cs, i, Winner(init), Winner(cs));
    }
  }

  lemma BeatenByThree(a: IntentMatch, b: IntentMatch, c: IntentMatch)
    requires !TieClosed(a, b, c)
    ensures !NotBeaten([b, a, c])
  {
    BestOfThree(b, a, c);
    assert Best([b, a, c]) == Some(c);
    assert [b, a, c][1] == a;
  }

  /** Exactly when near-ties cost little confidence: in every order of every selection from
      the pool the winner is beaten by no more than the band, if and only if ties along
      increasing specificity are closed. */
  lemma NeverBeatenIff(pool: seq<IntentMatch>)
    ensures TiesClosed(pool) <==>
            forall cs: seq<IntentMatch> :: cs != [] && (forall x :: x in cs ==> x in pool) ==> NotBeaten(cs)
  {
    if TiesClosed(pool) {
      forall cs: seq<IntentMatch> | cs != [] && forall x :: x in cs ==> x in pool
        ensures NotBeaten(cs)
      {
        forall i: nat | i < |cs| ensures cs[i].confidence <= cs[Winner(cs)].confidence + SPECIFICITY_EPSILON {
          ClosedTiesSupport(cs, i);
        }
      }
    } else {
      var a, b, c :| a in pool && b in pool && c in pool && !TieClosed(a, b, c);
      BeatenByThree(a, b, c);
      assert forall x :: x in [b, a, c] ==> x in pool;
    }
  }

  // ----- When no candidate is better than the winner -----

  /** The promise of the comparison itself: nobody is clearly more confident than the
      winner, and nobody who ties with it is more specific. */
  ghost predicate Unsurpassed(cs: seq<IntentMatch>)
    requires cs != []
  {
    forall i :: 0 <= i < |cs| ==> !Better(cs[i], cs[Winner(cs)])
  }

  predicate BetterChains(b: IntentMatch, w: IntentMatch, x: IntentMatch) {
    Better(w, b) && Better(x, w) ==> Better(x, b)
  }

  ghost predicate BetterTransitive(pool: seq<IntentMatch>) {
    forall b, w, x :: b in pool && w in pool && x in pool ==> BetterChains(b, w, x)
  }

  lemma {:induction false} TransitiveUnsurpassed(cs: seq<IntentMatch>)
    requires cs != [] && BetterTransitive(cs)
    ensures Unsurpassed(cs)
  {
    if |cs| > 1 {
      var init, c := cs[..|cs| - 1], cs[|cs| - 1];
      assert forall x :: x in init ==> x in cs;
      TransitiveUnsurpassed(init);
      forall i | 0 <= i < |cs| ensures !Better(cs[i], cs[Winner(cs)]) {
        assert BetterChains(init[Winner(init)], c, cs[i]);
      }
    }
  }

  lemma SurpassedByThree(b: IntentMatch, w: IntentMatch, x: IntentMatch)
    requires !BetterChains(b, w, x)
    ensures Best([b, x, w]) == Some(w) && !Unsurpassed([b, x, w])
  {
    BestOfThree(b, x, w);
    assert [b, x, w][1] == x;
  }

  /** Exactly when the comparison's promise holds whatever the order: no candidate of any
      selection from the pool is better than the winner, if and only if being better is
      transitive there. */
  lemma UnsurpassedIff(pool: seq<IntentMatch>)
    ensures BetterTransitive(pool) <==>
            forall cs: seq<IntentMatch> :: cs != [] && (forall x :: x in cs ==> x in pool) ==> Unsurpassed(cs)
  {
    if BetterTransitive(pool) {
      forall cs: seq<IntentMatch> | cs != [] && forall x :: x in cs ==> x in pool
        ensures Unsurpassed(cs)
      {
        TransitiveUnsurpassed(cs);
      }
    } else {
      var b, w, x :| b in pool && w in pool && x in pool && !BetterChains(b, w, x);
      SurpassedByThree(b, w, x);
      assert forall y :: y in [b, x, w] ==> y in pool;
    }
  }

  /** A pool on which near-ties cost no more than the band, and still a more specific
      candidate that ties with the winner loses to it: x ties with b at equal specificity,
      w is clearly ahead of b and ties with x. */
  lemma SpecificTieLoses(b: IntentMatch, x: IntentMatch, w: IntentMatch)
    requires b.specificity == x.specificity > w.specificity
    requires b.confidence < x.confidence < w.confidence && Tied(b, x) && Tied(x, w) && !Tied(b, w)
    ensures TiesClosed([b, x, w])
    ensures Better(x, w) && Best([b, x, w]) == Some(w) && Best([x, b, w]) == Some(x)
  {
    BestOfThree(b, x, w);
    BestOfThree(x, b, w);
  }

  /** Two ties in a row let a candidate win that another one beats by more than the band,
      and the reverse order gives another winner. */
  lemma TiesAreNotTransitive(a: IntentMatch, b: IntentMatch, c: IntentMatch)
    requires Tied(a, b) && Tied(b, c) && a.specificity < b.specificity < c.specificity
    requires a.confidence > c.confidence + SPECIFICITY_EPSILON
    ensures Best([a, b, c]) == Some(c) && Best([c, b, a]) == Some(a) && Better(a, c)
  {
    BestOfThree(a, b, c);
    BestOfThree(c, b, a);
  }
}
