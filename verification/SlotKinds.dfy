/** What the walk of a template accepts as a slot's value, and when it leaves the slot
    null, in terms of the rule's slot specifications. */
module SlotKinds {
  import opened Options
  import opened Slots
  import opened Templates
  import opened Text

  /** The same letter, or the same ASCII letter in the other case. */
  predicate SameUpToAsciiCase(x: char, y: char) {
    || x == y
    || ('A' <= x <= 'Z' && y as int == x as int + 32)
    || ('A' <= y <= 'Z' && x as int == y as int + 32)
  }

  predicate SameText(a: string, b: string) {
    |a| == |b| && forall i :: 0 <= i < |a| ==> SameUpToAsciiCase(a[i], b[i])
  }

  /** specs[i] is the first specification of that name. */
  predicate Governs(specs: seq<SlotSpec>, i: nat, name: string) {
    i < |specs| && specs[i].name == name && forall j :: 0 <= j < i ==> specs[j].name != name
  }

  /** A number slot takes what parses as one; an enumerated slot one of its options. */
  ghost predicate Violated(t: Tables, kind: Kind, value: string) {
    || (kind.Number? && !t.isNumber(value))
    || (kind.OneOf? && forall i :: 0 <= i < |kind.options| ==> !SameText(kind.options[i], value))
  }

  /** The first specification of the slot's name is violated. */
  ghost predicate Refused(t: Tables, specs: seq<SlotSpec>, name: string, value: string) {
    exists i: nat :: Governs(specs, i, name) && Violated(t, specs[i].kind, value)
  }

  lemma LetterCase(x: char, y: char)
    ensures AsciiLower(x) == AsciiLower(y) <==> SameUpToAsciiCase(x, y)
  {
  }

  lemma TextCase(a: string, b: string)
    ensures EqIgnoreAsciiCase(a, b) <==> SameText(a, b)
  {
    if |a| == |b| {
      forall i | 0 <= i < |a| ensures AsciiLower(a[i]) == AsciiLower(b[i]) <==> SameUpToAsciiCase(a[i], b[i]) {
        LetterCase(a[i], b[i]);
      }
    }
  }

  lemma GovernsLater(specs: seq<SlotSpec>, i: nat, name: string)
    requires specs != [] && specs[0].name != name
    ensures Governs(specs, i + 1, name) <==> Governs(specs[1..], i, name)
    ensures !Governs(specs, 0, name)
  {
    if Governs(specs, i + 1, name) {
      assert forall j :: 0 <= j < i ==> specs[1..][j] == specs[j + 1];
    }
    if Governs(specs[1..], i, name) {
      assert forall j :: 0 < j < i + 1 ==> specs[j] == specs[1..][j - 1];
    }
  }

  lemma KindViolated(t: Tables, kind: Kind, value: string)
    ensures Violated(t, kind, value) <==>
            !(match kind
              case AnyText => true
              case Number => t.isNumber(value)
              case OneOf(options) => exists i :: 0 <= i < |options| && EqIgnoreAsciiCase(options[i], value))
  {
    if kind.OneOf? {
      forall i | 0 <= i < |kind.options|
        ensures EqIgnoreAsciiCase(kind.options[i], value) <==> SameText(kind.options[i], value)
      {
        TextCase(kind.options[i], value);
      }
    }
  }

  lemma RefusedFurther(t: Tables, specs: seq<SlotSpec>, name: string, value: string)
    requires specs != [] && specs[0].name != name
    ensures Refused(t, specs, name, value) <==> Refused(t, specs[1..], name, value)
  {
    if Refused(t, specs, name, value) {
      var i: nat :| Governs(specs, i, name) && Violated(t, specs[i].kind, value);
      GovernsLater(specs, i - 1, name);
    }
    if Refused(t, specs[1..], name, value) {
      var i: nat :| Governs(specs[1..], i, name) && Violated(t, specs[1..][i].kind, value);
      GovernsLater(specs, i, name);
    }
  }

  lemma {:induction false} RefusedIff(t: Tables, specs: seq<SlotSpec>, name: string, value: string)
    ensures Refused(t, specs, name, value) <==> !KindOk(t, specs, value, name)
  {
    if specs == [] {
    } else if specs[0].name == name {
      assert Governs(specs, 0, name);
      assert forall i: nat :: Governs(specs, i, name) ==> i == 0;
      KindViolated(t, specs[0].kind, value);
    } else {
      RefusedIff(t, specs[1..], name, value);
      forall i: nat ensures Governs(specs, i + 1, name) <==> Governs(specs[1..], i, name) {
        GovernsLater(specs, i, name);
      }
      RefusedFurther(t, specs, name, value);
    }
  }

  /** For every template and every utterance it matches: no recorded value violates the
      first specification of its slot's name. */
  lemma ValuesRespectKinds(t: Tables, specs: seq<SlotSpec>, segs: seq<Segment>, input: string)
    requires WalkTo(t, specs, segs, input, |segs|).Some?
    ensures var found := WalkTo(t, specs, segs, input, |segs|).value.found;
            forall i :: 0 <= i < |found| && found[i].value.Some? ==>
              !Refused(t, specs, found[i].name, found[i].value.value)
  {
    var found := WalkTo(t, specs, segs, input, |segs|).value.found;
    SlotValuesAreSlices(t, specs, segs, input);
    forall i | 0 <= i < |found| && found[i].value.Some?
      ensures !Refused(t, specs, found[i].name, found[i].value.value)
    {
      assert ValueOk(t, specs, input, found[i]);
      RefusedIff(t, specs, found[i].name, found[i].value.value);
    }
  }

  // ----- What each slot takes -----

  /** The slot's gap reaches to where the next literal first occurs; it is empty if that
      occurs nowhere, and reaches to the end of the utterance if no literal follows. */
  ghost predicate GapEndsAt(u: Unicode, segs: seq<Segment>, k: nat, low: string, cursor: nat, end: nat)
    requires k < |segs| && cursor <= end <= |low|
  {
    if k + 1 < |segs| && segs[k + 1].Literal? then
      var next := Lower(u, segs[k + 1].text);
      if exists d: nat :: OccursAt(low[cursor..], next, d) then
        && OccursAt(low[cursor..], next, end - cursor)
        && forall d: nat :: d < end - cursor ==> !OccursAt(low[cursor..], next, d)
      else end == cursor
    else end == |low|
  }

  ghost predicate Passed(t: Tables, specs: seq<SlotSpec>, input: string, p: Progress, name: string, end: nat,
                         after: Option<Progress>)
    requires p.cursor <= end <= |input|
  {
    var value := Trim(t.u, input[p.cursor..end]);
    && after.Some? && |after.value.found| == |p.found| + 1 && after.value.found[..|p.found|] == p.found
    && after.value.found[|p.found|].name == name
    && if value != "" && !Refused(t, specs, name, value)
       then after.value.found[|p.found|].value == Some(value) && after.value.cursor == end
            && after.value.filled == p.filled + value
       else after.value.found[|p.found|].value == None && after.value.cursor == p.cursor
            && after.value.filled == p.filled
  }

  lemma SlotPassed(t: Tables, specs: seq<SlotSpec>, input: string, p: Progress, name: string, end: nat)
    requires p.cursor <= end <= |input|
    ensures Passed(t, specs, input, p, name, end, Some(SlotStep(t, specs, input, p, end, name)))
  {
    RefusedIff(t, specs, name, Trim(t.u, input[p.cursor..end]));
  }

  lemma EndOfGap(u: Unicode, segs: seq<Segment>, k: nat, low: string, cursor: nat)
    requires k < |segs| && cursor <= |low|
    ensures GapEndsAt(u, segs, k, low, cursor, SlotEnd(u, segs, k, low, cursor))
  {
  }

  /** Where the walk passes a slot: the gap, trimmed, becomes its value exactly if that is
      not empty and not refused; then the walk goes on behind the gap. Otherwise the slot
      is null and the walk stays. */
  lemma SlotTakesItsGap(t: Tables, specs: seq<SlotSpec>, segs: seq<Segment>, input: string, k: nat)
    requires k < |segs| && segs[k].Slot? && WalkTo(t, specs, segs, input, k).Some?
    ensures var p := WalkTo(t, specs, segs, input, k).value;
            exists end: nat :: p.cursor <= end <= |input| && GapEndsAt(t.u, segs, k, Lower(t.u, input), p.cursor, end)
              && Passed(t, specs, input, p, segs[k].name, end, WalkTo(t, specs, segs, input, k + 1))
  {
    var p := WalkTo(t, specs, segs, input, k).value;
    var end := SlotEnd(t.u, segs, k, Lower(t.u, input), p.cursor);
    EndOfGap(t.u, segs, k, Lower(t.u, input), p.cursor);
    assert WalkTo(t, specs, segs, input, k + 1) == Some(SlotStep(t, specs, input, p, end, segs[k].name));
    SlotPassed(t, specs, input, p, segs[k].name, end);
  }

  // ----- What each literal takes -----

  /** The literal, up to case, first occurs d characters on. */
  ghost predicate FirstOccurs(hay: string, needle: string, d: nat) {
    OccursAt(hay, needle, d) && forall e: nat :: e < d ==> !OccursAt(hay, needle, e)
  }

  ghost predicate Occurs(hay: string, needle: string) {
    exists d: nat :: OccursAt(hay, needle, d)
  }

  ghost predicate Behind(hay: string, needle: string, n: nat) {
    |needle| <= n && FirstOccurs(hay, needle, n - |needle|)
  }

  lemma FoundIff(hay: string, needle: string)
    ensures Find(hay, needle).Some? <==> Occurs(hay, needle)
    ensures Find(hay, needle).Some? ==> Behind(hay, needle, Find(hay, needle).value + |needle|)
  {
  }

  ghost predicate TakenAs(p: Progress, q: Progress, rest: string, needle: string, text: string) {
    && q.found == p.found && q.filled == p.filled + text
    && p.cursor <= q.cursor && Behind(rest, needle, q.cursor - p.cursor)
  }

  /** The literal was taken at its first occurrence, or, if it has none, without its
      trailing white space at the first occurrence of that; else nothing matches. */
  ghost predicate Taken(u: Unicode, low: string, p: Progress, text: string, q: Option<Progress>)
    requires p.cursor <= |low|
  {
    var rest, whole := low[p.cursor..], Lower(u, text);
    var part := TrimEnd(u, whole);
    if Occurs(rest, whole) then
      q.Some? && TakenAs(p, q.value, rest, whole, text)
    else if Occurs(rest, part) then
      q.Some? && TakenAs(p, q.value, rest, part, TrimEnd(u, text))
    else q.None?
  }

  lemma LiteralStepTakes(u: Unicode, low: string, p: Progress, text: string)
    requires p.cursor <= |low|
    ensures Taken(u, low, p, text, LiteralStep(u, low, p, text))
  {
    FoundIff(low[p.cursor..], Lower(u, text));
    FoundIff(low[p.cursor..], TrimEnd(u, Lower(u, text)));
  }

  /** Where the walk passes a literal: it goes on behind its first occurrence, or, if it
      has none, behind that of the literal without its trailing white space; if that has
      none either, the phrase does not match. */
  lemma LiteralTakesFirst(t: Tables, specs: seq<SlotSpec>, segs: seq<Segment>, input: string, k: nat)
    requires k < |segs| && segs[k].Literal? && WalkTo(t, specs, segs, input, k).Some?
    ensures Taken(t.u, Lower(t.u, input), WalkTo(t, specs, segs, input, k).value, segs[k].text,
                  WalkTo(t, specs, segs, input, k + 1))
  {
    var p := WalkTo(t, specs, segs, input, k).value;
    LiteralStepTakes(t.u, Lower(t.u, input), p, segs[k].text);
    Advances(t, specs, segs, input, k, p, LiteralStep(t.u, Lower(t.u, input), p, segs[k].text));
  }

  // ----- What the skill is handed -----

  /** found[i] is the last one of that name. */
  predicate LastOf(found: seq<Found>, i: nat, name: string) {
    i < |found| && found[i].name == name && forall j :: i < j < |found| ==> found[j].name != name
  }

  /** The skill gets every slot once, with the value of its last occurrence. */
  lemma {:induction false} SlotMapHoldsTheLast(found: seq<Found>, name: string)
    ensures name in SlotMap(found) <==> exists i: nat :: LastOf(found, i, name)
    ensures forall i: nat :: LastOf(found, i, name) ==> SlotMap(found)[name] == found[i].value
  {
    if found != [] {
      var init, last := found[..|found| - 1], found[|found| - 1];
      SlotMapHoldsTheLast(init, name);
      if last.name == name {
        assert LastOf(found, |found| - 1, name);
      } else {
        forall i: nat ensures LastOf(found, i, name) <==> LastOf(init, i, name) {
          if LastOf(init, i, name) {
            assert forall j :: i < j < |found| ==> found[j] == if j < |init| then init[j] else last;
          }
        }
      }
    }
  }
}
