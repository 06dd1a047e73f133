/** The edit similarity the intent matcher scores with: one less the Damerau-Levenshtein
    distance (with adjacent transpositions, unrestricted) over the longer length. */
module Similarity {
  /** The last of the first n characters that is c, counted from 1; 0 if none is. */
  function LastMatch(s: string, n: nat, c: char): (k: nat)
    requires n <= |s|
    ensures k <= n
  {
    if n == 0 then 0 else if s[n - 1] == c then n else LastMatch(s, n - 1, c)
  }

  function Min(a: nat, b: nat): nat {
    if a <= b then a else b
  }

  /** One substitution, deletion or insertion more. */
  function Edited(sub: nat, del: nat, ins: nat, same: bool): nat {
    Min(sub + (if same then 0 else 1), Min(del, ins) + 1)
  }

  /** Distance between the first i characters of a and the first j of b. */
  function Distance(a: string, b: string, i: nat, j: nat): nat
    requires i <= |a| && j <= |b|
    decreases i + j, 0
  {
    if i == 0 then j
    else if j == 0 then i
    else Min(Swapped(a, b, i, j),
             Edited(Distance(a, b, i - 1, j - 1), Distance(a, b, i - 1, j), Distance(a, b, i, j - 1),
                    a[i - 1] == b[j - 1]))
  }

  /** The last characters match crosswise: they are swapped and whatever lies between
      them is deleted or inserted. Without such a match, more than any edit costs. */
  function Swapped(a: string, b: string, i: nat, j: nat): nat
    requires 0 < i <= |a| && 0 < j <= |b|
    decreases i + j - 1, 1
  {
    var k := LastMatch(a, i - 1, b[j - 1]);
    var l := LastMatch(b, j - 1, a[i - 1]);
    if k == 0 || l == 0 then |a| + |b| else Distance(a, b, k - 1, l - 1) + (i - k - 1) + 1 + (j - l - 1)
  }

  lemma EditedBound(sub: nat, del: nat, ins: nat, same: bool)
    ensures Edited(sub, del, ins, same) <= sub + 1
    ensures Edited(sub, del, ins, same) == 0 <==> sub == 0 && same
  {
  }

  lemma {:induction false} DistanceBound(a: string, b: string, i: nat, j: nat)
    requires i <= |a| && j <= |b|
    ensures Distance(a, b, i, j) <= if i <= j then j else i
    decreases i + j
  {
    if i != 0 && j != 0 {
      DistanceBound(a, b, i - 1, j - 1);
      EditedBound(Distance(a, b, i - 1, j - 1), Distance(a, b, i - 1, j), Distance(a, b, i, j - 1),
                  a[i - 1] == b[j - 1]);
    }
  }

  /** Only equal strings are at distance 0. */
  lemma {:induction false} ZeroDistance(a: string, b: string, i: nat, j: nat)
    requires i <= |a| && j <= |b|
    ensures Distance(a, b, i, j) == 0 <==> a[..i] == b[..j]
    decreases i + j
  {
    if i != 0 && j != 0 {
      ZeroDistance(a, b, i - 1, j - 1);
      EditedBound(Distance(a, b, i - 1, j - 1), Distance(a, b, i - 1, j), Distance(a, b, i, j - 1),
                  a[i - 1] == b[j - 1]);
      assert a[..i] == a[..i - 1] + [a[i - 1]] && b[..j] == b[..j - 1] + [b[j - 1]];
    }
  }

  function Normalized(a: string, b: string): real {
    var longer := if |a| <= |b| then |b| else |a|;
    if longer == 0 then 1.0 else 1.0 - Distance(a, b, |a|, |b|) as real / longer as real
  }

  lemma Quotient(d: nat, n: nat)
    requires d <= n && 0 < n
    ensures 0.0 <= d as real / n as real <= 1.0
    ensures d as real / n as real == 0.0 <==> d == 0
  {
    var q := d as real / n as real;
    assert q * n as real == d as real;
  }

  /** Similarity lies in [0, 1] and is 1 exactly for equal strings. */
  lemma SimilarityLaws(a: string, b: string)
    ensures 0.0 <= Normalized(a, b) <= 1.0
    ensures Normalized(a, b) == 1.0 <==> a == b
  {
    DistanceBound(a, b, |a|, |b|);
    ZeroDistance(a, b, |a|, |b|);
    assert a[..|a|] == a && b[..|b|] == b;
    var longer := if |a| <= |b| then |b| else |a|;
    if longer != 0 {
      Quotient(Distance(a, b, |a|, |b|), longer);
    }
  }

  // ----- Letters replaced by one that the other string lacks -----

  function Count(s: string, n: nat, c: char): nat
    requires n <= |s|
  {
    if n == 0 then 0 else Count(s, n - 1, c) + if s[n - 1] == c then 1 else 0
  }

  lemma {:induction false} LastMatchHits(s: string, n: nat, c: char)
    requires n <= |s|
    ensures var k := LastMatch(s, n, c); 0 < k ==> s[k - 1] == c
  {
    if n != 0 && s[n - 1] != c {
      LastMatchHits(s, n - 1, c);
    }
  }

  lemma {:induction false} CountSpan(s: string, k: nat, n: nat, c: char)
    requires k <= n <= |s|
    ensures Count(s, k, c) <= Count(s, n, c) <= Count(s, k, c) + (n - k)
  {
    if k < n {
      CountSpan(s, k, n - 1, c);
    }
  }

  lemma EditedAtLeast(n: nat, sub: nat, del: nat, ins: nat, same: bool)
    requires n <= sub + (if same then 0 else 1) && n <= del + 1 && n <= ins + 1
    ensures n <= Edited(sub, del, ins, same)
  {
  }

  /** A character that b lacks has to be edited away wherever a has it. */
  lemma {:induction false} LackingCharacter(a: string, b: string, i: nat, j: nat, c: char)
    requires i <= |a| && j <= |b| && c !in b
    ensures Count(a, i, c) <= Distance(a, b, i, j)
    decreases i + j, 0
  {
    if i == 0 {
    } else if j == 0 {
      CountSpan(a, 0, i, c);
    } else {
      LackingCharacter(a, b, i - 1, j - 1, c);
      LackingCharacter(a, b, i - 1, j, c);
      LackingCharacter(a, b, i, j - 1, c);
      LackingSwapped(a, b, i, j, c);
      EditedAtLeast(Count(a, i, c), Distance(a, b, i - 1, j - 1), Distance(a, b, i - 1, j), Distance(a, b, i, j - 1),
                    a[i - 1] == b[j - 1]);
    }
  }

  lemma {:induction false} LackingSwapped(a: string, b: string, i: nat, j: nat, c: char)
    requires 0 < i <= |a| && 0 < j <= |b| && c !in b
    ensures Count(a, i, c) <= Swapped(a, b, i, j)
    decreases i + j - 1, 1
  {
    var k, l := LastMatch(a, i - 1, b[j - 1]), LastMatch(b, j - 1, a[i - 1]);
    LastMatchHits(a, i - 1, b[j - 1]);
    LastMatchHits(b, j - 1, a[i - 1]);
    CountSpan(a, 0, i, c);
    if k != 0 && l != 0 {
      LackingCharacter(a, b, k - 1, l - 1, c);
      CountSpan(a, k, i - 1, c);
      assert b[j - 1] in b && b[l - 1] in b;
    }
  }

  /** b with some of its characters overwritten by one it lacks. */
  predicate Overwritten(a: string, b: string, c: char) {
    |a| == |b| && c !in b && forall i :: 0 <= i < |a| ==> a[i] == b[i] || a[i] == c
  }

  lemma DistanceStep(a: string, b: string, i: nat, j: nat)
    requires 0 < i <= |a| && 0 < j <= |b|
    ensures Distance(a, b, i, j) <= Distance(a, b, i - 1, j - 1) + if a[i - 1] == b[j - 1] then 0 else 1
  {
  }

  lemma {:induction false} OverwrittenAtMost(a: string, b: string, i: nat, c: char)
    requires Overwritten(a, b, c) && i <= |a|
    ensures Distance(a, b, i, i) <= Count(a, i, c)
  {
    if i != 0 {
      OverwrittenAtMost(a, b, i - 1, c);
      DistanceStep(a, b, i, i);
    }
  }

  /** Each overwritten character costs exactly one edit. */
  lemma OverwrittenDistance(a: string, b: string, c: char)
    requires Overwritten(a, b, c)
    ensures Distance(a, b, |a|, |b|) == Count(a, |a|, c)
  {
    OverwrittenAtMost(a, b, |a|, c);
    LackingCharacter(a, b, |a|, |b|, c);
  }

  lemma {:induction false} CountPrefix(a: string, b: string, n: nat, c: char)
    requires n <= |a|
    ensures Count(a + b, n, c) == Count(a, n, c)
  {
    if n != 0 {
      CountPrefix(a, b, n - 1, c);
    }
  }

  lemma {:induction false} CountAppend(a: string, b: string, n: nat, c: char)
    requires n <= |b|
    ensures Count(a + b, |a| + n, c) == Count(a, |a|, c) + Count(b, n, c)
  {
    if n == 0 {
      CountPrefix(a, b, |a|, c);
    } else {
      CountAppend(a, b, n - 1, c);
    }
  }

  lemma {:induction false} CountNone(s: string, n: nat, c: char)
    requires n <= |s| && c !in s
    ensures Count(s, n, c) == 0
  {
    if n != 0 {
      CountNone(s, n - 1, c);
    }
  }

  // ----- One slip of the tongue -----

  lemma {:induction false} SameTail(a: string, b: string, i: nat, j: nat, n: nat)
    requires i + n <= |a| && j + n <= |b| && forall k :: i <= k < i + n ==> a[k] == b[k - i + j]
    ensures Distance(a, b, i + n, j + n) <= Distance(a, b, i, j)
  {
    if n != 0 {
      SameTail(a, b, i, j, n - 1);
      DistanceStep(a, b, i + n, j + n);
    }
  }

  lemma SameHead(a: string, b: string, i: nat)
    requires i <= |a| && i <= |b| && forall k :: 0 <= k < i ==> a[k] == b[k]
    ensures Distance(a, b, i, i) == 0
  {
    assert a[..i] == b[..i];
    ZeroDistance(a, b, i, i);
  }

  lemma DifferentCost(a: string, b: string)
    requires a != b
    ensures Distance(a, b, |a|, |b|) != 0
  {
    assert a[..|a|] == a && b[..|b|] == b;
    ZeroDistance(a, b, |a|, |b|);
  }

  lemma SwapCosts(a: string, b: string, i: nat)
    requires i + 2 <= |a| && i + 2 <= |b| && a[i] == b[i + 1] && a[i + 1] == b[i]
    ensures Distance(a, b, i + 2, i + 2) <= Distance(a, b, i, i) + 1
  {
    assert LastMatch(a, i + 1, b[i + 1]) == i + 1 && LastMatch(b, i + 1, a[i + 1]) == i + 1;
  }

  /** Two neighbouring characters in the wrong order are one edit. */
  lemma TransposedDistance(a: string, b: string, i: nat)
    requires |a| == |b| && i + 2 <= |a| && a[i] == b[i + 1] != a[i + 1] == b[i]
    requires forall k :: 0 <= k < |a| && k != i && k != i + 1 ==> a[k] == b[k]
    ensures Distance(a, b, |a|, |b|) == 1
  {
    SameHead(a, b, i);
    SwapCosts(a, b, i);
    SameTail(a, b, i + 2, i + 2, |a| - i - 2);
    DifferentCost(a, b);
  }

  lemma ExtraCosts(a: string, b: string, i: nat, j: nat)
    requires i < |a| && j <= |b|
    ensures Distance(a, b, i + 1, j) <= Distance(a, b, i, j) + 1
  {
  }

  /** A character too many is one edit. */
  lemma ExtraDistance(a: string, b: string, i: nat)
    requires |a| == |b| + 1 && i <= |b|
    requires (forall k :: 0 <= k < i ==> a[k] == b[k]) && forall k :: i <= k < |b| ==> a[k + 1] == b[k]
    ensures Distance(a, b, |a|, |b|) == 1
  {
    SameHead(a, b, i);
    ExtraCosts(a, b, i, i);
    SameTail(a, b, i + 1, i, |b| - i);
    DifferentCost(a, b);
  }

  lemma MissingCosts(a: string, b: string, i: nat, j: nat)
    requires i <= |a| && j < |b|
    ensures Distance(a, b, i, j + 1) <= Distance(a, b, i, j) + 1
  {
  }

  /** So is a character too few. */
  lemma MissingDistance(a: string, b: string, i: nat)
    requires |b| == |a| + 1 && i <= |a|
    requires (forall k :: 0 <= k < i ==> a[k] == b[k]) && forall k :: i <= k < |a| ==> a[k] == b[k + 1]
    ensures Distance(a, b, |a|, |b|) == 1
  {
    SameHead(a, b, i);
    MissingCosts(a, b, i, i);
    SameTail(a, b, i, i + 1, |a| - i);
    DifferentCost(a, b);
  }
}
