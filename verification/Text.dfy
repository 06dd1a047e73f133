/** The string operations the decoders, the sentence buffer and the intent matcher share. */
module Text {
  import opened Options

  /** The Unicode tables, as far as this program looks at them. Lower-casing is
      taken one character at a time. */
  datatype Unicode = Unicode(lower: char -> char, isAlnum: char -> bool, isSpace: char -> bool) {
    /** What is used of the real tables: white space and word characters are
        apart, and lower-casing keeps a character's class. */
    ghost predicate Lawful() {
      && isSpace(' ')
      && !isSpace('\'') && !isSpace('-')
      && (forall c {:trigger isSpace(c), isAlnum(c)} :: isSpace(c) ==> !isAlnum(c))
      && (forall c {:trigger lower(c)} :: isAlnum(lower(c)) == isAlnum(c))
      && (forall c {:trigger lower(c)} :: isSpace(lower(c)) == isSpace(c))
      && (forall c {:trigger lower(c)} :: lower(c) in {'\'', '-'} <==> c in {'\'', '-'})
    }
  }

  // ----- Case -----

  function Lower(u: Unicode, s: string): (r: string)
    ensures |r| == |s|
    ensures forall i :: 0 <= i < |s| ==> r[i] == u.lower(s[i])
  {
    seq(|s|, i requires 0 <= i < |s| => u.lower(s[i]))
  }

  lemma LowerAppend(u: Unicode, a: string, b: string)
    ensures Lower(u, a + b) == Lower(u, a) + Lower(u, b)
  {
  }

  lemma LowerSlice(u: Unicode, s: string, i: nat, j: nat)
    requires i <= j <= |s|
    ensures Lower(u, s[i..j]) == Lower(u, s)[i..j]
  {
  }

  // ----- White space at the ends -----

  predicate AllSpace(u: Unicode, s: string) {
    forall i :: 0 <= i < |s| ==> u.isSpace(s[i])
  }

  function TrimStart(u: Unicode, s: string): string {
    if s == "" || !u.isSpace(s[0]) then s else TrimStart(u, s[1..])
  }

  function TrimEnd(u: Unicode, s: string): string {
    if s == "" || !u.isSpace(s[|s| - 1]) then s else TrimEnd(u, s[..|s| - 1])
  }

  function Trim(u: Unicode, s: string): string {
    TrimEnd(u, TrimStart(u, s))
  }

  predicate IsTrimmed(u: Unicode, s: string) {
    s == "" || (!u.isSpace(s[0]) && !u.isSpace(s[|s| - 1]))
  }

  lemma SliceOfTail(s: string, i: nat, n: nat)
    requires i + n <= |s|
    ensures s[i..][..n] == s[i..i + n] && s[i..][n..] == s[i + n..]
  {
  }

  lemma {:induction false} TrimStartCuts(u: Unicode, s: string) returns (i: nat)
    ensures i <= |s| && TrimStart(u, s) == s[i..] && AllSpace(u, s[..i])
    ensures i < |s| ==> !u.isSpace(s[i])
  {
    if s == "" || !u.isSpace(s[0]) {
      i := 0;
    } else {
      i := TrimStartCuts(u, s[1..]);
      assert s[1..][i..] == s[i + 1..] && s[..i + 1] == [s[0]] + s[1..][..i];
      i := i + 1;
    }
  }

  lemma {:induction false} TrimEndCuts(u: Unicode, s: string) returns (n: nat)
    ensures n <= |s| && TrimEnd(u, s) == s[..n] && AllSpace(u, s[n..])
    ensures 0 < n ==> !u.isSpace(s[n - 1])
  {
    if s == "" || !u.isSpace(s[|s| - 1]) {
      n := |s|;
    } else {
      n := TrimEndCuts(u, s[..|s| - 1]);
      assert s[..|s| - 1][..n] == s[..n] && s[n..] == s[..|s| - 1][n..] + [s[|s| - 1]];
    }
  }

  /** trim cuts a slice out of s, losing only white space on either side. */
  lemma TrimCuts(u: Unicode, s: string) returns (i: nat, j: nat)
    ensures i <= j <= |s| && Trim(u, s) == s[i..j]
    ensures AllSpace(u, s[..i]) && AllSpace(u, s[j..])
    ensures IsTrimmed(u, Trim(u, s))
  {
    i := TrimStartCuts(u, s);
    var n := TrimEndCuts(u, s[i..]);
    j := i + n;
    SliceOfTail(s, i, n);
    if i < j {
      assert s[i..j][0] == s[i] && s[i..j][n - 1] == s[i..][n - 1];
    }
  }

  lemma SplitInThree(s: string, i: nat, j: nat)
    requires i <= j <= |s|
    ensures s == s[..i] + s[i..j] + s[j..]
  {
  }

  lemma TrimParts(u: Unicode, s: string) returns (lead: string, trail: string)
    ensures s == lead + Trim(u, s) + trail && AllSpace(u, lead) && AllSpace(u, trail)
  {
    var i, j := TrimCuts(u, s);
    lead, trail := s[..i], s[j..];
    SplitInThree(s, i, j);
  }

  lemma TrimToNothing(u: Unicode, s: string)
    ensures Trim(u, s) == "" <==> AllSpace(u, s)
    ensures IsTrimmed(u, Trim(u, s))
  {
    var i, j := TrimCuts(u, s);
    if i < j {
      assert s[i..j][0] == s[i];
    } else {
      assert forall k :: 0 <= k < |s| ==> s[k] == if k < i then s[..i][k] else s[j..][k - j];
    }
  }

  lemma TrimOfTrimmed(u: Unicode, s: string)
    requires IsTrimmed(u, s)
    ensures Trim(u, s) == s
  {
  }

  // ----- First occurrence -----

  predicate OccursAt(hay: string, needle: string, k: nat) {
    k + |needle| <= |hay| && hay[k..k + |needle|] == needle
  }

  lemma OccursShift(hay: string, needle: string)
    requires hay != ""
    ensures forall k: nat :: OccursAt(hay[1..], needle, k) <==> OccursAt(hay, needle, k + 1)
    ensures OccursAt(hay, needle, 0) <==> needle <= hay
  {
    forall k: nat ensures OccursAt(hay[1..], needle, k) <==> OccursAt(hay, needle, k + 1) {
      if k + 1 + |needle| <= |hay| {
        assert hay[1..][k..k + |needle|] == hay[k + 1..k + 1 + |needle|];
      }
    }
  }

  /** str::find: the first place needle occurs, if any. */
  function Find(hay: string, needle: string): (r: Option<nat>)
    ensures r.Some? ==> OccursAt(hay, needle, r.value) && forall k: nat :: k < r.value ==> !OccursAt(hay, needle, k)
    ensures r.None? ==> forall k: nat :: !OccursAt(hay, needle, k)
    decreases |hay|
  {
    if needle <= hay then
      assert OccursAt(hay, needle, 0);
      Some(0)
    else if hay == "" then
      None
    else
      var r := Find(hay[1..], needle);
      assert forall k: nat :: OccursAt(hay, needle, k) ==> 0 < k && OccursAt(hay[1..], needle, k - 1) by {
        OccursShift(hay, needle);
      }
      assert forall k: nat :: OccursAt(hay[1..], needle, k) ==> OccursAt(hay, needle, k + 1) by {
        OccursShift(hay, needle);
      }
      if r.Some? then Some(r.value + 1) else None
  }

  lemma FindIs(hay: string, needle: string, k: nat)
    requires OccursAt(hay, needle, k) && forall j: nat :: j < k ==> !OccursAt(hay, needle, j)
    ensures Find(hay, needle) == Some(k)
  {
  }

  lemma {:induction false} TrimStartOfPadded(u: Unicode, lead: string, s: string)
    requires AllSpace(u, lead) && (s == "" || !u.isSpace(s[0]))
    ensures TrimStart(u, lead + s) == s
  {
    if lead == "" {
      assert lead + s == s;
    } else {
      TrimStartOfPadded(u, lead[1..], s);
      assert (lead + s)[1..] == lead[1..] + s;
    }
  }

  lemma {:induction false} TrimEndOfPadded(u: Unicode, s: string, trail: string)
    requires AllSpace(u, trail) && (s == "" || !u.isSpace(s[|s| - 1]))
    ensures TrimEnd(u, s + trail) == s
  {
    if trail == "" {
      assert s + trail == s;
    } else {
      TrimEndOfPadded(u, s, trail[..|trail| - 1]);
      assert (s + trail)[..|s + trail| - 1] == s + trail[..|trail| - 1];
    }
  }

  /** Padding a trimmed text with white space and trimming gives it back. */
  lemma TrimOfPadded(u: Unicode, lead: string, s: string, trail: string)
    requires AllSpace(u, lead) && AllSpace(u, trail) && s != "" && IsTrimmed(u, s)
    ensures Trim(u, lead + s + trail) == s
  {
    assert lead + s + trail == lead + (s + trail);
    assert (s + trail)[0] == s[0];
    TrimStartOfPadded(u, lead, s + trail);
    TrimEndOfPadded(u, s, trail);
  }
}
