/** Slot-less phrases: normalisation, word windows, and the confidence of a phrase
    spoken inside other words. */
module Literals {
  import opened Similarity
  import opened Text

  // ----- Runs of characters -----

  /** The string ends inside a run. */
  predicate Unbroken(s: string, inWord: char -> bool) {
    s != "" && inWord(s[|s| - 1])
  }

  /** One more word character, in the last run or starting another. */
  function Grow(runs: seq<string>, c: char, unbroken: bool): seq<string> {
    if unbroken && runs != [] then runs[..|runs| - 1] + [runs[|runs| - 1] + [c]] else runs + [[c]]
  }

  /** The maximal runs of characters that satisfy inWord. */
  function RunsOf(s: string, inWord: char -> bool): seq<string> {
    if s == "" then []
    else
      var init, c := s[..|s| - 1], s[|s| - 1];
      if inWord(c) then Grow(RunsOf(init, inWord), c, Unbroken(init, inWord)) else RunsOf(init, inWord)
  }

  predicate IsWord(w: string, inWord: char -> bool) {
    w != "" && forall i :: 0 <= i < |w| ==> inWord(w[i])
  }

  lemma GrowIsWord(runs: seq<string>, c: char, unbroken: bool, inWord: char -> bool)
    requires forall w :: w in runs ==> IsWord(w, inWord)
    ensures inWord(c) ==> forall w :: w in Grow(runs, c, unbroken) ==> IsWord(w, inWord)
  {
    if unbroken && runs != [] {
      assert IsWord(runs[|runs| - 1], inWord);
    }
  }

  lemma {:induction false} RunsAreWords(s: string, inWord: char -> bool)
    ensures forall w :: w in RunsOf(s, inWord) ==> IsWord(w, inWord)
    ensures Unbroken(s, inWord) ==> RunsOf(s, inWord) != []
  {
    if s != "" {
      RunsAreWords(s[..|s| - 1], inWord);
      GrowIsWord(RunsOf(s[..|s| - 1], inWord), s[|s| - 1], Unbroken(s[..|s| - 1], inWord), inWord);
    }
  }

  /** One step of the definition, at the end of a concatenation. */
  lemma RunsStep(s: string, c: char, inWord: char -> bool)
    ensures RunsOf(s + [c], inWord) ==
            if inWord(c) then Grow(RunsOf(s, inWord), c, Unbroken(s, inWord)) else RunsOf(s, inWord)
  {
    assert (s + [c])[..|s|] == s;
  }

  lemma GrowAfter(before: seq<string>, runs: seq<string>, c: char, unbroken: bool)
    requires unbroken ==> runs != []
    ensures Grow(before + runs, c, unbroken) == before + Grow(runs, c, unbroken)
  {
  }

  lemma LastSplit(s: string)
    requires s != ""
    ensures s == s[..|s| - 1] + [s[|s| - 1]]
  {
  }

  predicate Seam(a: string, b: string, inWord: char -> bool) {
    a == "" || b == "" || !inWord(a[|a| - 1]) || !inWord(b[0])
  }

  lemma LoneChar(runs: seq<string>, c: char, unbroken: bool)
    ensures !unbroken ==> Grow(runs, c, unbroken) == runs + [[c]]
    ensures runs + [] == runs
  {
  }

  /** Runs of a concatenation, when no run reaches across the seam. */
  lemma {:induction false} RunsAppend(a: string, b: string, inWord: char -> bool)
    requires Seam(a, b, inWord)
    ensures RunsOf(a + b, inWord) == RunsOf(a, inWord) + RunsOf(b, inWord)
    decreases |b|
  {
    if b == "" {
      assert a + b == a;
    } else {
      var init, c := b[..|b| - 1], b[|b| - 1];
      LastSplit(b);
      assert a + b == a + init + [c];
      RunsStep(a + init, c, inWord);
      RunsAreWords(init, inWord);
      if init == "" {
        assert a + init == a;
        LoneChar(RunsOf(a, inWord), c, Unbroken(a, inWord));
        LoneChar([], c, false);
      } else {
        RunsAppend(a, init, inWord);
        GrowAfter(RunsOf(a, inWord), RunsOf(init, inWord), c, Unbroken(init, inWord));
      }
    }
  }

  /** A word is a single run. */
  lemma {:induction false} RunOfWord(w: string, inWord: char -> bool)
    requires IsWord(w, inWord)
    ensures RunsOf(w, inWord) == [w]
  {
    var init, c := w[..|w| - 1], w[|w| - 1];
    LastSplit(w);
    if init != "" {
      assert forall i :: 0 <= i < |init| ==> init[i] == w[i];
      RunOfWord(init, inWord);
    }
  }

  // ----- Words -----

  function NotSpace(u: Unicode): char -> bool {
    (c: char) => !u.isSpace(c)
  }

  /** split_whitespace. */
  function Words(u: Unicode, s: string): seq<string> {
    RunsOf(s, NotSpace(u))
  }

  /** join(" "). */
  function Join(words: seq<string>): string {
    if |words| <= 1 then if words == [] then "" else words[0]
    else Join(words[..|words| - 1]) + " " + words[|words| - 1]
  }

  lemma RunsOfPhraseAndWord(s: string, w: string, inWord: char -> bool)
    requires !inWord(' ') && IsWord(w, inWord)
    ensures RunsOf(s + " " + w, inWord) == RunsOf(s, inWord) + [w]
  {
    RunOfWord(w, inWord);
    RunsStep(s, ' ', inWord);
    RunsAppend(s + " ", w, inWord);
  }

  /** Splitting into runs undoes joining words with spaces, when a space is in no word. */
  lemma {:induction false} RunsOfJoin(words: seq<string>, inWord: char -> bool)
    requires !inWord(' ') && forall w :: w in words ==> IsWord(w, inWord)
    ensures RunsOf(Join(words), inWord) == words
  {
    if words != [] {
      var init, w := words[..|words| - 1], words[|words| - 1];
      assert IsWord(w, inWord);
      RunOfWord(w, inWord);
      if init == [] {
        assert words == [w];
      } else {
        RunsOfJoin(init, inWord);
        RunsOfPhraseAndWord(Join(init), w, inWord);
        assert init + [w] == words;
      }
    }
  }

  /** split_whitespace undoes join(" ") on words. */
  lemma WordsOfJoin(u: Unicode, words: seq<string>)
    requires u.isSpace(' ')
    requires forall w :: w in words ==> IsWord(w, NotSpace(u))
    ensures Words(u, Join(words)) == words
  {
    RunsOfJoin(words, NotSpace(u));
  }

  // ----- normalize_literal -----

  predicate Kept(u: Unicode, c: char) {
    u.isAlnum(c) || c == '\'' || c == '-'
  }

  function KeptBy(u: Unicode): char -> bool {
    (c: char) => Kept(u, c)
  }

  /** The words of s in lower case, every character that is not kept separating. */
  function SpokenWords(u: Unicode, s: string): seq<string> {
    RunsOf(Lower(u, s), KeptBy(u))
  }

  function Flattened(words: seq<string>): string {
    if words == [] then "" else Flattened(words[..|words| - 1]) + words[|words| - 1]
  }

  /** The letters, digits, apostrophes and hyphens of a text, in lower case. */
  function Spelled(u: Unicode, s: string): string {
    if s == "" then ""
    else
      var c := u.lower(s[|s| - 1]);
      Spelled(u, s[..|s| - 1]) + if u.isAlnum(c) || c == '\'' || c == '-' then [c] else ""
  }

  lemma FlattenedGrow(words: seq<string>, c: char, unbroken: bool)
    ensures Flattened(Grow(words, c, unbroken)) == Flattened(words) + [c]
  {
    if unbroken && words != [] {
      var init, last := words[..|words| - 1], words[|words| - 1];
      assert (init + [last + [c]])[..|init|] == init;
      assert Flattened(init) + (last + [c]) == Flattened(init) + last + [c];
    } else {
      assert (words + [[c]])[..|words|] == words;
    }
  }

  /** Normalisation keeps exactly those characters, in order. */
  lemma {:induction false} WordsSpellTheText(u: Unicode, s: string)
    ensures Flattened(SpokenWords(u, s)) == Spelled(u, s)
  {
    if s != "" {
      var init, c := s[..|s| - 1], u.lower(s[|s| - 1]);
      WordsSpellTheText(u, init);
      assert Lower(u, s) == Lower(u, init) + [c];
      RunsStep(Lower(u, init), c, KeptBy(u));
      FlattenedGrow(SpokenWords(u, init), c, Unbroken(Lower(u, init), KeptBy(u)));
    }
  }

  /** The normal form of the first i characters of a lower-cased text. */
  function NormalOf(u: Unicode, low: string, i: nat): string
    requires i <= |low|
  {
    Join(RunsOf(low[..i], KeptBy(u)))
  }

  function WithKept(out: string, pendingSpace: bool, c: char): string {
    if pendingSpace && out != "" then out + " " + [c] else out + [c]
  }

  lemma JoinOne(w: string)
    ensures Join([w]) == w && Join([]) == "" && "" + w == w
  {
  }

  lemma JoinEmpty(words: seq<string>, inWord: char -> bool)
    requires forall w :: w in words ==> IsWord(w, inWord)
    ensures Join(words) == "" <==> words == []
  {
    if |words| == 1 {
      assert IsWord(words[0], inWord);
    }
  }

  lemma Reassociate(a: string, w: string, c: char)
    ensures a + " " + (w + [c]) == a + " " + w + [c]
  {
  }

  /** Extending the last word, and starting another one. */
  lemma JoinGrows(words: seq<string>, c: char)
    requires words != []
    ensures Join(Grow(words, c, false)) == Join(words) + " " + [c]
    ensures Join(Grow(words, c, true)) == Join(words) + [c]
  {
    assert (words + [[c]])[..|words|] == words;
    var init, last := words[..|words| - 1], words[|words| - 1];
    assert (init + [last + [c]])[..|init|] == init;
    if init != [] {
      Reassociate(Join(init), last, c);
    }
  }

  lemma NormalizeChar(u: Unicode, s: string, c: char)
    ensures var out := Join(RunsOf(s, KeptBy(u)));
            Join(RunsOf(s + [c], KeptBy(u))) ==
              if Kept(u, c) then WithKept(out, s != "" && !Kept(u, s[|s| - 1]), c) else out
  {
    var runs := RunsOf(s, KeptBy(u));
    RunsStep(s, c, KeptBy(u));
    RunsAreWords(s, KeptBy(u));
    JoinEmpty(runs, KeptBy(u));
    if runs == [] {
      JoinOne([c]);
    } else {
      JoinGrows(runs, c);
    }
  }

  lemma NormalizeStep(u: Unicode, low: string, i: nat)
    requires i < |low|
    ensures NormalOf(u, low, i + 1) ==
            if Kept(u, low[i]) then WithKept(NormalOf(u, low, i), 0 < i && !Kept(u, low[i - 1]), low[i])
            else NormalOf(u, low, i)
  {
    assert low[..i + 1] == low[..i] + [low[i]];
    NormalizeChar(u, low[..i], low[i]);
  }

  method NormalizeLiteral(u: Unicode, s: string) returns (out: string)
    ensures out == Join(SpokenWords(u, s))
  {
    var low := Lower(u, s);
    out := "";
    var pendingSpace := false;
    for i := 0 to |low|
      invariant out == NormalOf(u, low, i)
      invariant pendingSpace == (0 < i && !Kept(u, low[i - 1]))
    {
      NormalizeStep(u, low, i);
      if Kept(u, low[i]) {
        out := PushKept(out, pendingSpace, low[i]);
        pendingSpace := false;
      } else {
        pendingSpace := true;
      }
    }
    assert low[..|low|] == low;
  }

  /** A kept character, after the space that is due unless nothing precedes it. */
  method PushKept(out: string, pendingSpace: bool, c: char) returns (longer: string)
    ensures longer == WithKept(out, pendingSpace, c)
  {
    longer := out;
    if pendingSpace && longer != "" {
      longer := longer + " ";
    }
    longer := longer + [c];
  }

  // ----- best_window_similarity -----

  function Max(a: real, b: real): real {
    if a >= b then a else b
  }

  function Window(words: seq<string>, start: nat, size: nat): string
    requires start + size <= |words|
  {
    Join(words[start..start + size])
  }

  /** The best of the first count windows of one size. */
  function BestOf(phrase: string, words: seq<string>, size: nat, count: nat): real
    requires count == 0 || count - 1 + size <= |words|
  {
    if count == 0 then 0.0
    else Max(BestOf(phrase, words, size, count - 1), Normalized(phrase, Window(words, count - 1, size)))
  }

  function BestOfSize(phrase: string, words: seq<string>, size: nat): real {
    if size > |words| then 0.0 else BestOf(phrase, words, size, |words| - size + 1)
  }

  function OneLess(n: nat): nat {
    if n <= 2 then 1 else n - 1
  }

  function BestOfSizes(phrase: string, words: seq<string>, sizes: seq<nat>): real {
    if sizes == [] then 0.0
    else Max(BestOfSizes(phrase, words, sizes[..|sizes| - 1]), BestOfSize(phrase, words, sizes[|sizes| - 1]))
  }

  function BestWindow(u: Unicode, phrase: string, input: string): real {
    var words, n := Words(u, input), |Words(u, phrase)|;
    if n == 0 || |words| <= n then 0.0 else BestOfSizes(phrase, words, [OneLess(n), n, n + 1])
  }

  method BestWindowSimilarity(u: Unicode, phrase: string, input: string) returns (best: real)
    ensures best == BestWindow(u, phrase, input)
  {
    var words, n := Words(u, input), |Words(u, phrase)|;
    if n == 0 || |words| <= n {
      return 0.0;
    }
    var sizes := [OneLess(n), n, n + 1];
    best := 0.0;
    for k := 0 to |sizes|
      invariant 0.0 <= best == BestOfSizes(phrase, words, sizes[..k])
    {
      assert sizes[..k + 1] == sizes[..k] + [sizes[k]];
      if sizes[k] <= |words| {
        best := ScanWindows(phrase, words, sizes[k], best);
      }
    }
    assert sizes[..|sizes|] == sizes;
  }

  method ScanWindows(phrase: string, words: seq<string>, size: nat, before: real) returns (best: real)
    requires size <= |words| && 0.0 <= before
    ensures best == Max(before, BestOfSize(phrase, words, size)) && 0.0 <= best
  {
    best := before;
    for start := 0 to |words| - size + 1
      invariant best == Max(before, BestOf(phrase, words, size, start))
    {
      var window := Join(words[start..start + size]);
      best := Max(best, Normalized(phrase, window));
    }
  }

  lemma {:induction false} BestOfIsMax(phrase: string, words: seq<string>, size: nat, count: nat)
    requires count == 0 || count - 1 + size <= |words|
    ensures 0.0 <= BestOf(phrase, words, size, count)
    ensures forall k: nat :: k < count ==>
              Normalized(phrase, Window(words, k, size)) <= BestOf(phrase, words, size, count)
    ensures BestOf(phrase, words, size, count) == 0.0
            || exists k: nat :: k < count
                 && BestOf(phrase, words, size, count) == Normalized(phrase, Window(words, k, size))
  {
    if count != 0 {
      BestOfIsMax(phrase, words, size, count - 1);
    }
  }

  lemma BestOfSizeIsMax(phrase: string, words: seq<string>, size: nat)
    ensures 0.0 <= BestOfSize(phrase, words, size) <= 1.0
    ensures forall k: nat :: k + size <= |words| ==>
              Normalized(phrase, Window(words, k, size)) <= BestOfSize(phrase, words, size)
  {
    if size <= |words| {
      var count := |words| - size + 1;
      BestOfIsMax(phrase, words, size, count);
      if BestOf(phrase, words, size, count) != 0.0 {
        var k: nat :| k < count && BestOf(phrase, words, size, count) == Normalized(phrase, Window(words, k, size));
        SimilarityLaws(phrase, Window(words, k, size));
      }
    }
  }

  lemma {:induction false} BestOfSizesIsMax(phrase: string, words: seq<string>, sizes: seq<nat>)
    ensures 0.0 <= BestOfSizes(phrase, words, sizes) <= 1.0
    ensures forall size :: size in sizes ==> BestOfSize(phrase, words, size) <= BestOfSizes(phrase, words, sizes)
  {
    if sizes != [] {
      var init, last := sizes[..|sizes| - 1], sizes[|sizes| - 1];
      BestOfSizesIsMax(phrase, words, init);
      BestOfSizeIsMax(phrase, words, last);
      assert forall size :: size in sizes ==> size in init || size == last;
    }
  }

  /** A window that reads exactly like the phrase scores 1. */
  lemma ExactWindow(u: Unicode, phrase: string, input: string, start: nat)
    requires var n := |Words(u, phrase)|; 0 < n < |Words(u, input)| && start + n <= |Words(u, input)|
    requires Window(Words(u, input), start, |Words(u, phrase)|) == phrase
    ensures BestWindow(u, phrase, input) >= 1.0
  {
    var words, n := Words(u, input), |Words(u, phrase)|;
    BestOfSizeIsMax(phrase, words, n);
    BestOfSizesIsMax(phrase, words, [OneLess(n), n, n + 1]);
    SimilarityLaws(phrase, Window(words, start, n));
  }

  lemma BestWindowRange(u: Unicode, phrase: string, input: string)
    ensures 0.0 <= BestWindow(u, phrase, input) <= 1.0
  {
    var words, n := Words(u, input), |Words(u, phrase)|;
    BestOfSizesIsMax(phrase, words, [OneLess(n), n, n + 1]);
  }

  /** A window of the utterance a word shorter, as long or a word longer than the phrase. */
  ghost predicate InReach(words: seq<string>, n: nat, start: nat, size: nat) {
    1 <= size && n - 1 <= size <= n + 1 && start + size <= |words|
  }

  lemma {:induction false} SizesReached(phrase: string, words: seq<string>, sizes: seq<nat>)
    ensures var best := BestOfSizes(phrase, words, sizes);
            best == 0.0 || exists size :: size in sizes && best == BestOfSize(phrase, words, size)
  {
    if sizes != [] {
      SizesReached(phrase, words, sizes[..|sizes| - 1]);
    }
  }

  lemma NoWindowBeats(phrase: string, words: seq<string>, n: nat, start: nat, size: nat)
    requires 0 < n && InReach(words, n, start, size)
    ensures Normalized(phrase, Window(words, start, size)) <= BestOfSizes(phrase, words, [OneLess(n), n, n + 1])
  {
    var sizes := [OneLess(n), n, n + 1];
    assert size == sizes[0] || size == sizes[1] || size == sizes[2];
    BestOfSizesIsMax(phrase, words, sizes);
    BestOfSizeIsMax(phrase, words, size);
  }

  lemma WindowOfSize(phrase: string, words: seq<string>, size: nat) returns (start: nat)
    requires BestOfSize(phrase, words, size) != 0.0
    ensures start + size <= |words|
    ensures BestOfSize(phrase, words, size) == Normalized(phrase, Window(words, start, size))
  {
    BestOfIsMax(phrase, words, size, |words| - size + 1);
    start :| start < |words| - size + 1
      && BestOfSize(phrase, words, size) == Normalized(phrase, Window(words, start, size));
  }

  lemma SomeWindowScores(phrase: string, words: seq<string>, n: nat) returns (start: nat, size: nat)
    requires 0 < n && BestOfSizes(phrase, words, [OneLess(n), n, n + 1]) != 0.0
    ensures InReach(words, n, start, size)
    ensures Normalized(phrase, Window(words, start, size)) == BestOfSizes(phrase, words, [OneLess(n), n, n + 1])
  {
    var sizes := [OneLess(n), n, n + 1];
    SizesReached(phrase, words, sizes);
    size :| size in sizes && BestOfSizes(phrase, words, sizes) == BestOfSize(phrase, words, size);
    start := WindowOfSize(phrase, words, size);
  }

  /** In an utterance longer than the phrase, the score is the best of all windows in
      reach: none scores more, and one scores just that, unless all score nothing. */
  lemma BestWindowIsBest(u: Unicode, phrase: string, input: string)
    requires 0 < |Words(u, phrase)| < |Words(u, input)|
    ensures forall start: nat, size: nat :: InReach(Words(u, input), |Words(u, phrase)|, start, size) ==>
              Normalized(phrase, Window(Words(u, input), start, size)) <= BestWindow(u, phrase, input)
    ensures BestWindow(u, phrase, input) != 0.0 ==>
              exists start: nat, size: nat :: InReach(Words(u, input), |Words(u, phrase)|, start, size)
                && (BestWindow(u, phrase, input) == Normalized(phrase, Window(Words(u, input), start, size)))
  {
    var words, n := Words(u, input), |Words(u, phrase)|;
    forall start: nat, size: nat | InReach(words, n, start, size)
      ensures Normalized(phrase, Window(words, start, size)) <= BestWindow(u, phrase, input)
    {
      NoWindowBeats(phrase, words, n, start, size);
    }
    if BestWindow(u, phrase, input) != 0.0 {
      var start, size := SomeWindowScores(phrase, words, n);
    }
  }

  // ----- The confidence of a slot-less phrase -----

  function LiteralScore(u: Unicode, phrase: string, input: string): real {
    var a, b := Join(SpokenWords(u, phrase)), Join(SpokenWords(u, input));
    Max(Normalized(a, b), BestWindow(u, a, b) * 0.95)
  }

  lemma SpokenWordsAreWords(u: Unicode, s: string)
    requires u.Lawful()
    ensures Words(u, Join(SpokenWords(u, s))) == SpokenWords(u, s)
  {
    RunsAreWords(Lower(u, s), KeptBy(u));
    forall w | w in SpokenWords(u, s)
      ensures IsWord(w, NotSpace(u))
    {
      assert IsWord(w, KeptBy(u));
      forall i | 0 <= i < |w|
        ensures !u.isSpace(w[i])
      {
        assert Kept(u, w[i]);
      }
    }
    WordsOfJoin(u, SpokenWords(u, s));
  }

  /** Only an utterance with the phrase's own normal form scores 1: the discount keeps
      every padded match below it. */
  lemma FullScoreIffSameWords(u: Unicode, phrase: string, input: string)
    ensures 0.0 <= LiteralScore(u, phrase, input) <= 1.0
    ensures LiteralScore(u, phrase, input) == 1.0 <==> Join(SpokenWords(u, phrase)) == Join(SpokenWords(u, input))
  {
    var a, b := Join(SpokenWords(u, phrase)), Join(SpokenWords(u, input));
    SimilarityLaws(a, b);
    BestWindowRange(u, a, b);
  }

  /** What may stand next to a phrase: nothing, or text whose nearest character is
      not part of a word. */
  predicate PadBefore(u: Unicode, pre: string) {
    pre == "" || !Kept(u, u.lower(pre[|pre| - 1]))
  }

  predicate PadAfter(u: Unicode, post: string) {
    post == "" || !Kept(u, u.lower(post[0]))
  }

  /** Normalisation distributes over padded speech. */
  lemma PaddedWords(u: Unicode, pre: string, phrase: string, post: string)
    requires PadBefore(u, pre) && PadAfter(u, post)
    ensures SpokenWords(u, pre + phrase + post) == SpokenWords(u, pre) + SpokenWords(u, phrase) + SpokenWords(u, post)
  {
    LowerAppend(u, pre + phrase, post);
    LowerAppend(u, pre, phrase);
    RunsAppend(Lower(u, pre + phrase), Lower(u, post), KeptBy(u));
    RunsAppend(Lower(u, pre), Lower(u, phrase), KeptBy(u));
  }

  lemma MiddleWindow(a: seq<string>, b: seq<string>, c: seq<string>)
    ensures (a + b + c)[|a|..|a| + |b|] == b
    ensures |a + b + c| <= |b| ==> a + b + c == b
  {
    if |a + b + c| <= |b| {
      assert a == [] && c == [];
    }
  }

  /** Padded speech scores at least 0.95, and 1 when nothing was added. */
  lemma PaddedSpeechScores(u: Unicode, pre: string, phrase: string, post: string)
    requires u.Lawful() && SpokenWords(u, phrase) != []
    requires PadBefore(u, pre) && PadAfter(u, post)
    ensures LiteralScore(u, phrase, pre + phrase + post) >= 0.95
    ensures SpokenWords(u, pre) == SpokenWords(u, post) == [] ==> LiteralScore(u, phrase, pre + phrase + post) == 1.0
    ensures SpokenWords(u, pre) + SpokenWords(u, post) != [] ==>
              LiteralScore(u, phrase, pre + phrase + post) ==
              Max(0.95, Normalized(Join(SpokenWords(u, phrase)), Join(SpokenWords(u, pre + phrase + post))))
  {
    var input := pre + phrase + post;
    var words, n := SpokenWords(u, phrase), |SpokenWords(u, phrase)|;
    PaddedWords(u, pre, phrase, post);
    MiddleWindow(SpokenWords(u, pre), words, SpokenWords(u, post));
    SpokenWordsAreWords(u, phrase);
    SpokenWordsAreWords(u, input);
    var a, b := Join(words), Join(SpokenWords(u, input));
    SimilarityLaws(a, b);
    if |SpokenWords(u, input)| > n {
      ExactWindow(u, a, b, |SpokenWords(u, pre)|);
      BestWindowRange(u, a, b);
    }
  }
}
