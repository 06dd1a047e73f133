/** The walk of a template over an utterance. Offsets count characters; the code's
    byte offsets agree with them because lower-casing is taken character by character. */
module Slots {
  import opened Options
  import opened Templates
  import opened Text

  datatype Kind = AnyText | Number | OneOf(options: seq<string>)

  datatype SlotSpec = SlotSpec(name: string, kind: Kind)

  /** The character tables, and which texts parse as a floating-point number. */
  datatype Tables = Tables(u: Unicode, isNumber: string -> bool)

  function AsciiLower(c: char): char {
    if 'A' <= c <= 'Z' then (c as int + 32) as char else c
  }

  predicate EqIgnoreAsciiCase(a: string, b: string) {
    |a| == |b| && forall i :: 0 <= i < |a| ==> AsciiLower(a[i]) == AsciiLower(b[i])
  }

  /** The first slot specification of that name decides; without one, anything goes. */
  predicate KindOk(t: Tables, specs: seq<SlotSpec>, raw: string, name: string) {
    specs == [] ||
    if specs[0].name != name then KindOk(t, specs[1..], raw, name)
    else
      match specs[0].kind
      case AnyText => true
      case Number => t.isNumber(raw)
      case OneOf(options) => exists i :: 0 <= i < |options| && EqIgnoreAsciiCase(options[i], raw)
  }

  /** One slot as the walk left it: its value, and where in the input it was found. */
  datatype Found = Found(name: string, value: Option<string>, start: nat, end: nat)

  datatype Progress = Progress(cursor: nat, found: seq<Found>, filled: string)

  const START := Progress(0, [], "")

  function LiteralStep(u: Unicode, low: string, p: Progress, text: string): (r: Option<Progress>)
    requires p.cursor <= |low|
    ensures r.Some? ==> p.cursor <= r.value.cursor <= |low|
  {
    var hit := Find(low[p.cursor..], Lower(u, text));
    if hit.Some? then Some(Progress(p.cursor + hit.value + |text|, p.found, p.filled + text))
    else
      var trimmed := TrimEnd(u, Lower(u, text));
      var again := Find(low[p.cursor..], trimmed);
      if again.Some? then
        Some(Progress(p.cursor + again.value + |trimmed|, p.found, p.filled + TrimEnd(u, text)))
      else None
  }

  /** A slot reaches to the next literal, to where it starts if that is not found, and
      to the end of the input when no literal follows. */
  function SlotEnd(u: Unicode, segs: seq<Segment>, k: nat, low: string, cursor: nat): (end: nat)
    requires cursor <= |low|
    ensures cursor <= end <= |low|
  {
    if k + 1 < |segs| && segs[k + 1].Literal? then
      var hit := Find(low[cursor..], Lower(u, segs[k + 1].text));
      if hit.Some? then cursor + hit.value else cursor
    else |low|
  }

  function LeadingSpace(u: Unicode, s: string): (n: nat)
    ensures n <= |s|
  {
    if s == "" || !u.isSpace(s[0]) then 0 else LeadingSpace(u, s[1..]) + 1
  }

  function SlotStep(t: Tables, specs: seq<SlotSpec>, input: string, p: Progress, end: nat, name: string): (r: Progress)
    requires p.cursor <= end <= |input|
    ensures p.cursor <= r.cursor <= |input|
  {
    var gap := input[p.cursor..end];
    var raw := Trim(t.u, gap);
    var start := p.cursor + LeadingSpace(t.u, gap);
    if raw != "" && KindOk(t, specs, raw, name) then
      Progress(end, p.found + [Found(name, Some(raw), start, start + |raw|)], p.filled + raw)
    else
      Progress(p.cursor, p.found + [Found(name, None, p.cursor, p.cursor)], p.filled)
  }

  /** Segment k, from where the walk stands. */
  function Step(t: Tables, specs: seq<SlotSpec>, segs: seq<Segment>, input: string, k: nat, p: Progress)
    : (r: Option<Progress>)
    requires k < |segs| && p.cursor <= |input|
    ensures r.Some? ==> r.value.cursor <= |input|
  {
    var low := Lower(t.u, input);
    match segs[k]
    case Literal(text) => LiteralStep(t.u, low, p, text)
    case Slot(name) => Some(SlotStep(t, specs, input, p, SlotEnd(t.u, segs, k, low, p.cursor), name))
  }

  /** The walk over the first k segments; None once a literal is not found. */
  function WalkTo(t: Tables, specs: seq<SlotSpec>, segs: seq<Segment>, input: string, k: nat): (r: Option<Progress>)
    requires k <= |segs|
    ensures r.Some? ==> r.value.cursor <= |input|
  {
    if k == 0 then Some(START)
    else
      var before := WalkTo(t, specs, segs, input, k - 1);
      if before.None? then None else Step(t, specs, segs, input, k - 1, before.value)
  }

  /** The slots handed to the skill: a later slot of the same name replaces an earlier one. */
  function SlotMap(found: seq<Found>): map<string, Option<string>> {
    if found == [] then map[]
    else SlotMap(found[..|found| - 1])[found[|found| - 1].name := found[|found| - 1].value]
  }

  datatype Extraction = Extraction(slots: map<string, Option<string>>, filled: string)

  function ExtractionOf(p: Option<Progress>): Option<Extraction> {
    if p.None? then None else Some(Extraction(SlotMap(p.value.found), p.value.filled))
  }

  lemma FailureStays(t: Tables, specs: seq<SlotSpec>, segs: seq<Segment>, input: string, k: nat, n: nat)
    requires k <= n <= |segs| && WalkTo(t, specs, segs, input, k).None?
    ensures WalkTo(t, specs, segs, input, n).None?
    decreases n - k
  {
    if k < n {
      FailureStays(t, specs, segs, input, k + 1, n);
    }
  }

  lemma SlotMapGrows(found: seq<Found>, f: Found)
    ensures SlotMap(found + [f]) == SlotMap(found)[f.name := f.value]
  {
    assert (found + [f])[..|found|] == found;
  }

  lemma Advances(t: Tables, specs: seq<SlotSpec>, segs: seq<Segment>, input: string, k: nat, p: Progress,
                 after: Option<Progress>)
    requires k < |segs| && WalkTo(t, specs, segs, input, k) == Some(p) && after == Step(t, specs, segs, input, k, p)
    ensures WalkTo(t, specs, segs, input, k + 1) == after
    ensures after.None? ==> WalkTo(t, specs, segs, input, |segs|).None?
  {
    if after.None? {
      FailureStays(t, specs, segs, input, k + 1, |segs|);
    }
  }

  method Walk(t: Tables, specs: seq<SlotSpec>, segs: seq<Segment>, input: string) returns (r: Option<Extraction>)
    ensures r == ExtractionOf(WalkTo(t, specs, segs, input, |segs|))
  {
    var low := Lower(t.u, input);
    var cursor: nat := 0;
    var slots: map<string, Option<string>> := map[];
    var filled := "";
    ghost var p := START;
    for k := 0 to |segs|
      invariant WalkTo(t, specs, segs, input, k) == Some(p)
      invariant cursor == p.cursor <= |input| && filled == p.filled && slots == SlotMap(p.found)
    {
      var next := PassSegment(t, specs, segs, input, low, k, p, cursor, slots, filled);
      ghost var after := Step(t, specs, segs, input, k, p);
      Advances(t, specs, segs, input, k, p, after);
      if next.None? {
        return None;
      }
      cursor, slots, filled := next.value.0, next.value.1, next.value.2;
      p := after.value;
    }
    r := Some(Extraction(slots, filled));
  }

  predicate Agrees(next: Option<(nat, map<string, Option<string>>, string)>, p: Option<Progress>) {
    if p.None? then next.None? else next == Some((p.value.cursor, SlotMap(p.value.found), p.value.filled))
  }

  /** The body of the walk's loop. */
  method PassSegment(t: Tables, specs: seq<SlotSpec>, segs: seq<Segment>, input: string, low: string, k: nat,
                     ghost p: Progress, cursor: nat, slots: map<string, Option<string>>, filled: string)
    returns (next: Option<(nat, map<string, Option<string>>, string)>)
    requires k < |segs| && low == Lower(t.u, input)
    requires cursor == p.cursor <= |input| && filled == p.filled && slots == SlotMap(p.found)
    ensures Agrees(next, Step(t, specs, segs, input, k, p))
  {
    match segs[k]
    case Literal(text) =>
      var passed := PassLiteral(t.u, low, p, cursor, filled, text);
      next := if passed.None? then None else Some((passed.value.0, slots, passed.value.1));
    case Slot(name) =>
      var end := FindEnd(t.u, segs, k, low, cursor);
      var cursor', slots', filled' := TakeSlot(t, specs, input, p, end, name, cursor, slots, filled);
      next := Some((cursor', slots', filled'));
  }

  method FindEnd(u: Unicode, segs: seq<Segment>, k: nat, low: string, cursor: nat) returns (end: nat)
    requires cursor <= |low|
    ensures end == SlotEnd(u, segs, k, low, cursor)
  {
    end := |low|;
    if k + 1 < |segs| && segs[k + 1].Literal? {
      var hit := Find(low[cursor..], Lower(u, segs[k + 1].text));
      end := cursor + if hit.Some? then hit.value else 0;
    }
  }

  method TakeSlot(t: Tables, specs: seq<SlotSpec>, input: string, ghost p: Progress, end: nat, name: string,
                  cursor: nat, slots: map<string, Option<string>>, filled: string)
    returns (cursor': nat, slots': map<string, Option<string>>, filled': string)
    requires cursor == p.cursor <= end <= |input| && filled == p.filled && slots == SlotMap(p.found)
    ensures var p' := SlotStep(t, specs, input, p, end, name);
            cursor' == p'.cursor && filled' == p'.filled && slots' == SlotMap(p'.found)
  {
    var raw := Trim(t.u, input[cursor..end]);
    ghost var found := SlotStep(t, specs, input, p, end, name).found;
    SlotMapGrows(p.found, found[|p.found|]);
    if raw != "" && KindOk(t, specs, raw, name) {
      return end, slots[name := Some(raw)], filled + raw;
    }
    return cursor, slots[name := None], filled;
  }

  method PassLiteral(u: Unicode, low: string, ghost p: Progress, cursor: nat, filled: string, text: string)
    returns (r: Option<(nat, string)>)
    requires cursor == p.cursor <= |low| && filled == p.filled
    ensures LiteralStep(u, low, p, text) ==
            if r.None? then None else Some(Progress(r.value.0, p.found, r.value.1))
  {
    var lower := Lower(u, text);
    var hit := Find(low[cursor..], lower);
    if hit.Some? {
      return Some((cursor + hit.value + |lower|, filled + text));
    }
    var trimmed := TrimEnd(u, lower);
    hit := Find(low[cursor..], trimmed);
    if hit.None? {
      return None;
    }
    return Some((cursor + hit.value + |trimmed|, filled + TrimEnd(u, text)));
  }

  // ----- What a slot value is -----

  ghost predicate ValueOk(t: Tables, specs: seq<SlotSpec>, input: string, f: Found) {
    && f.start <= f.end <= |input|
    && (f.value.Some? ==>
          && f.value.value == input[f.start..f.end]
          && f.value.value != "" && IsTrimmed(t.u, f.value.value)
          && KindOk(t, specs, f.value.value, f.name))
  }

  ghost predicate InOrder(found: seq<Found>) {
    forall i, j :: 0 <= i < j < |found| ==> found[i].end <= found[j].start
  }

  function SlotNames(segs: seq<Segment>, k: nat): seq<string>
    requires k <= |segs|
  {
    if k == 0 then []
    else SlotNames(segs, k - 1) + if segs[k - 1].Slot? then [segs[k - 1].name] else []
  }

  function Names(found: seq<Found>): seq<string> {
    seq(|found|, i requires 0 <= i < |found| => found[i].name)
  }

  ghost predicate Extracted(t: Tables, specs: seq<SlotSpec>, input: string, p: Progress) {
    && (forall i :: 0 <= i < |p.found| ==> ValueOk(t, specs, input, p.found[i]) && p.found[i].end <= p.cursor)
    && InOrder(p.found)
  }

  lemma {:induction false} TrimStartSkips(u: Unicode, s: string)
    ensures TrimStart(u, s) == s[LeadingSpace(u, s)..]
  {
    if s != "" && u.isSpace(s[0]) {
      TrimStartSkips(u, s[1..]);
    }
  }

  lemma SliceOfSlice(s: string, a: nat, b: nat, i: nat, j: nat)
    requires a <= b <= |s| && i <= j <= b - a
    ensures s[a..b][i..j] == s[a + i..a + j]
  {
    forall k | 0 <= k < j - i ensures s[a..b][i..j][k] == s[a + i..a + j][k] {
    }
  }

  lemma TrimmedSlice(u: Unicode, s: string) returns (n: nat)
    ensures LeadingSpace(u, s) + n <= |s| && Trim(u, s) == s[LeadingSpace(u, s)..LeadingSpace(u, s) + n]
  {
    TrimStartSkips(u, s);
    n := TrimEndCuts(u, TrimStart(u, s));
    SliceOfTail(s, LeadingSpace(u, s), n);
  }

  lemma TrimmedGap(u: Unicode, input: string, cursor: nat, end: nat)
    requires cursor <= end <= |input|
    ensures var gap := input[cursor..end];
            var start := cursor + LeadingSpace(u, gap);
            var raw := Trim(u, gap);
            start + |raw| <= end && raw == input[start..start + |raw|] && IsTrimmed(u, raw)
  {
    var gap := input[cursor..end];
    TrimToNothing(u, gap);
    var n := TrimmedSlice(u, gap);
    SliceOfSlice(input, cursor, end, LeadingSpace(u, gap), LeadingSpace(u, gap) + n);
  }

  lemma SlotStepExtracts(t: Tables, specs: seq<SlotSpec>, input: string, p: Progress, end: nat, name: string)
    requires p.cursor <= end <= |input| && Extracted(t, specs, input, p)
    ensures var r := SlotStep(t, specs, input, p, end, name);
            Extracted(t, specs, input, r) && Names(r.found) == Names(p.found) + [name]
  {
    TrimmedGap(t.u, input, p.cursor, end);
  }

  lemma LiteralStepExtracts(t: Tables, specs: seq<SlotSpec>, input: string, p: Progress, text: string)
    requires p.cursor <= |input| && Extracted(t, specs, input, p)
    ensures var r := LiteralStep(t.u, Lower(t.u, input), p, text);
            r.Some? ==> Extracted(t, specs, input, r.value) && r.value.found == p.found
  {
  }

  lemma StepExtracts(t: Tables, specs: seq<SlotSpec>, segs: seq<Segment>, input: string, k: nat, p: Progress)
    requires k < |segs| && p.cursor <= |input| && Extracted(t, specs, input, p)
    ensures var r := Step(t, specs, segs, input, k, p);
            r.Some? ==>
              Extracted(t, specs, input, r.value)
              && Names(r.value.found) == Names(p.found) + if segs[k].Slot? then [segs[k].name] else []
  {
    match segs[k]
    case Slot(name) =>
      SlotStepExtracts(t, specs, input, p, SlotEnd(t.u, segs, k, Lower(t.u, input), p.cursor), name);
    case Literal(text) => LiteralStepExtracts(t, specs, input, p, text);
  }

  /** Extracted, and every slot of the first k segments recorded. */
  ghost function Recording(t: Tables, specs: seq<SlotSpec>, segs: seq<Segment>, input: string)
    : (nat, Progress) -> bool
  {
    (k: nat, p: Progress) => Extracted(t, specs, input, p) && k <= |segs| && Names(p.found) == SlotNames(segs, k)
  }

  /** What every step keeps, the walk keeps. */
  lemma {:induction false} WalkKeeps(t: Tables, specs: seq<SlotSpec>, segs: seq<Segment>, input: string,
                                     kept: (nat, Progress) -> bool, k: nat)
    requires k <= |segs| && kept(0, START)
    requires forall i: nat, p: Progress ::
               i < |segs| && p.cursor <= |input| && kept(i, p) && Step(t, specs, segs, input, i, p).Some? ==>
                 kept(i + 1, Step(t, specs, segs, input, i, p).value)
    requires WalkTo(t, specs, segs, input, k).Some?
    ensures kept(k, WalkTo(t, specs, segs, input, k).value)
  {
    if k != 0 {
      WalkKeeps(t, specs, segs, input, kept, k - 1);
    }
  }

  lemma RecordingKept(t: Tables, specs: seq<SlotSpec>, segs: seq<Segment>, input: string)
    ensures var kept := Recording(t, specs, segs, input);
            forall i: nat, p: Progress ::
              i < |segs| && p.cursor <= |input| && kept(i, p) && Step(t, specs, segs, input, i, p).Some? ==>
                kept(i + 1, Step(t, specs, segs, input, i, p).value)
  {
    forall i: nat, p: Progress
      | i < |segs| && p.cursor <= |input| && Recording(t, specs, segs, input)(i, p)
        && Step(t, specs, segs, input, i, p).Some?
      ensures Recording(t, specs, segs, input)(i + 1, Step(t, specs, segs, input, i, p).value)
    {
      StepExtracts(t, specs, segs, input, i, p);
    }
  }

  /** For every template and every utterance it matches: the walk records each slot of
      the template once and in order; a value is a trimmed, non-empty slice of the
      utterance in its original case that satisfies its kind; slices do not overlap. */
  lemma SlotValuesAreSlices(t: Tables, specs: seq<SlotSpec>, segs: seq<Segment>, input: string)
    requires WalkTo(t, specs, segs, input, |segs|).Some?
    ensures var found := WalkTo(t, specs, segs, input, |segs|).value.found;
            && Names(found) == SlotNames(segs, |segs|)
            && (forall i :: 0 <= i < |found| ==> ValueOk(t, specs, input, found[i]))
            && InOrder(found)
  {
    assert Names(START.found) == SlotNames(segs, 0);
    assert Recording(t, specs, segs, input)(0, START);
    RecordingKept(t, specs, segs, input);
    WalkKeeps(t, specs, segs, input, Recording(t, specs, segs, input), |segs|);
  }

  // ----- Extraction undoes filling -----

  /** texts[k] stands for segment k: the literal in whatever case, or the slot's value. */
  ghost predicate Filling(t: Tables, specs: seq<SlotSpec>, segs: seq<Segment>, texts: seq<string>) {
    && |texts| == |segs|
    && (forall k :: 0 <= k < |segs| && segs[k].Literal? ==> Lower(t.u, texts[k]) == Lower(t.u, segs[k].text))
    && (forall k :: 0 <= k < |segs| && segs[k].Slot? ==>
          texts[k] != "" && IsTrimmed(t.u, texts[k]) && KindOk(t, specs, texts[k], segs[k].name))
  }

  /** input is the texts laid end to end, the k-th from at[k] to at[k + 1]. */
  ghost predicate Laid(input: string, texts: seq<string>, at: seq<nat>) {
    && |at| == |texts| + 1 && at[0] == 0 && at[|texts|] == |input|
    && (forall k {:trigger texts[k]} :: 0 <= k < |texts| ==>
          at[k] <= at[k + 1] <= |input| && input[at[k]..at[k + 1]] == texts[k])
  }

  lemma LaidAt(input: string, texts: seq<string>, at: seq<nat>, k: nat)
    requires Laid(input, texts, at) && k < |texts|
    ensures at[k] <= at[k + 1] <= |input| && input[at[k]..at[k + 1]] == texts[k] && |texts[k]| == at[k + 1] - at[k]
  {
    var text := texts[k];
  }

  predicate NoAdjacentSlots(segs: seq<Segment>) {
    forall k :: 0 < k < |segs| && segs[k].Slot? ==> segs[k - 1].Literal?
  }

  /** Looking from the start of the value before it, each literal first occurs right
      after that value. */
  ghost predicate FirstWherePlaced(u: Unicode, segs: seq<Segment>, texts: seq<string>, input: string, at: seq<nat>)
    requires Laid(input, texts, at) && |texts| == |segs|
  {
    forall k {:trigger segs[k]} :: 0 <= k < |segs| - 1 && segs[k].Slot? && segs[k + 1].Literal? ==>
      at[k] <= |input| && Find(Lower(u, input)[at[k]..], Lower(u, segs[k + 1].text)) == Some(|texts[k]|)
  }

  ghost predicate Fillable(t: Tables, specs: seq<SlotSpec>, segs: seq<Segment>, texts: seq<string>, input: string,
                           at: seq<nat>)
  {
    && Filling(t, specs, segs, texts) && Laid(input, texts, at)
    && NoAdjacentSlots(segs) && FirstWherePlaced(t.u, segs, texts, input, at)
  }

  function RecordOf(segs: seq<Segment>, texts: seq<string>, at: seq<nat>, k: nat): seq<Found>
    requires k < |segs| == |texts| < |at|
  {
    match segs[k]
    case Literal(_) => []
    case Slot(name) => [Found(name, Some(texts[k]), at[k], at[k + 1])]
  }

  /** What the walk should record: every slot with its value, where it was put. */
  function Recorded(segs: seq<Segment>, texts: seq<string>, at: seq<nat>, k: nat): seq<Found>
    requires k <= |segs| == |texts| < |at|
  {
    if k == 0 then [] else Recorded(segs, texts, at, k - 1) + RecordOf(segs, texts, at, k - 1)
  }

  function PieceOf(segs: seq<Segment>, texts: seq<string>, k: nat): string
    requires k < |segs| == |texts|
  {
    match segs[k] case Literal(text) => text case Slot(_) => texts[k]
  }

  /** What the walk should rebuild: the template's own literals and the values. */
  function Rebuilt(segs: seq<Segment>, texts: seq<string>, k: nat): string
    requires k <= |segs| == |texts|
  {
    if k == 0 then "" else Rebuilt(segs, texts, k - 1) + PieceOf(segs, texts, k - 1)
  }

  lemma PieceReads(t: Tables, specs: seq<SlotSpec>, segs: seq<Segment>, texts: seq<string>, k: nat)
    requires Filling(t, specs, segs, texts) && k < |segs|
    ensures Lower(t.u, PieceOf(segs, texts, k)) == Lower(t.u, texts[k])
  {
  }

  lemma ReadsFurther(u: Unicode, a: string, b: string, input: string, i: nat, j: nat)
    requires i <= j <= |input| && Lower(u, a) == Lower(u, input[..i]) && Lower(u, b) == Lower(u, input[i..j])
    ensures Lower(u, a + b) == Lower(u, input[..j])
  {
    LowerAppend(u, a, b);
    LowerAppend(u, input[..i], input[i..j]);
    assert input[..i] + input[i..j] == input[..j];
  }

  /** The first k pieces read like the utterance up to where text k begins. */
  ghost function ReadsSoFar(u: Unicode, segs: seq<Segment>, texts: seq<string>, input: string, at: seq<nat>)
    : nat -> bool
  {
    (k: nat) =>
      && k <= |segs| == |texts| < |at| && at[k] <= |input|
      && Lower(u, Rebuilt(segs, texts, k)) == Lower(u, input[..at[k]])
  }

  lemma PieceFits(t: Tables, specs: seq<SlotSpec>, segs: seq<Segment>, texts: seq<string>, input: string,
                  at: seq<nat>, k: nat, rebuilt: string)
    requires Filling(t, specs, segs, texts) && Laid(input, texts, at) && k < |segs|
    requires at[k] <= |input| && Lower(t.u, rebuilt) == Lower(t.u, input[..at[k]])
    ensures at[k + 1] <= |input|
    ensures Lower(t.u, rebuilt + PieceOf(segs, texts, k)) == Lower(t.u, input[..at[k + 1]])
  {
    LaidAt(input, texts, at, k);
    PieceReads(t, specs, segs, texts, k);
    ReadsFurther(t.u, rebuilt, PieceOf(segs, texts, k), input, at[k], at[k + 1]);
  }

  lemma RebuiltFurther(t: Tables, specs: seq<SlotSpec>, segs: seq<Segment>, texts: seq<string>, input: string,
                       at: seq<nat>, k: nat)
    requires Filling(t, specs, segs, texts) && Laid(input, texts, at) && k < |segs|
    requires ReadsSoFar(t.u, segs, texts, input, at)(k)
    ensures ReadsSoFar(t.u, segs, texts, input, at)(k + 1)
  {
    PieceFits(t, specs, segs, texts, input, at, k, Rebuilt(segs, texts, k));
  }

  /** Guards the facts below, so that they are used for the step at hand only. */
  predicate Below(k: nat, n: nat) {
    k < n
  }

  /** Induction over the segments of a template. */
  lemma {:induction false} Climb(holds: nat -> bool, k: nat, n: nat)
    requires k <= n && holds(0)
    requires forall i: nat {:trigger Below(i, n)} :: Below(i, n) && holds(i) ==> holds(i + 1)
    ensures holds(k)
  {
    if k != 0 {
      Climb(holds, k - 1, n);
      assert Below(k - 1, n);
    }
  }

  /** It reads like the utterance. */
  lemma RebuiltReads(t: Tables, specs: seq<SlotSpec>, segs: seq<Segment>, texts: seq<string>, input: string,
                     at: seq<nat>)
    requires Filling(t, specs, segs, texts) && Laid(input, texts, at)
    ensures Lower(t.u, Rebuilt(segs, texts, |segs|)) == Lower(t.u, input)
  {
    var sofar := ReadsSoFar(t.u, segs, texts, input, at);
    forall k: nat | Below(k, |segs|) && sofar(k) ensures sofar(k + 1) {
      RebuiltFurther(t, specs, segs, texts, input, at, k);
    }
    Climb(sofar, |segs|, |segs|);
    assert input[..|input|] == input;
  }

  lemma LiteralFound(u: Unicode, input: string, p: Progress, text: string)
    requires p.cursor + |text| <= |input| && Lower(u, input[p.cursor..p.cursor + |text|]) == Lower(u, text)
    ensures LiteralStep(u, Lower(u, input), p, text) == Some(Progress(p.cursor + |text|, p.found, p.filled + text))
  {
    var low := Lower(u, input);
    LowerSlice(u, input, p.cursor, p.cursor + |text|);
    assert low[p.cursor..][0..0 + |text|] == low[p.cursor..p.cursor + |text|];
    FindIs(low[p.cursor..], Lower(u, text), 0);
  }

  lemma ValueFound(t: Tables, specs: seq<SlotSpec>, input: string, p: Progress, end: nat, name: string)
    requires p.cursor <= end <= |input|
    requires var value := input[p.cursor..end]; value != "" && IsTrimmed(t.u, value) && KindOk(t, specs, value, name)
    ensures var value := input[p.cursor..end];
            SlotStep(t, specs, input, p, end, name) ==
            Progress(end, p.found + [Found(name, Some(value), p.cursor, end)], p.filled + value)
  {
    TrimOfTrimmed(t.u, input[p.cursor..end]);
  }

  /** Walking segment k takes the walk from where its text begins to where it ends. */
  ghost predicate Follows(t: Tables, specs: seq<SlotSpec>, segs: seq<Segment>, texts: seq<string>, input: string,
                          at: seq<nat>, k: nat, found: seq<Found>, filled: string)
    requires k < |segs| == |texts| && |at| == |texts| + 1
  {
    && at[k] <= |input| && at[k + 1] <= |input|
    && Step(t, specs, segs, input, k, Progress(at[k], found, filled)) ==
       Some(Progress(at[k + 1], found + RecordOf(segs, texts, at, k), filled + PieceOf(segs, texts, k)))
  }

  lemma LiteralFollows(t: Tables, specs: seq<SlotSpec>, segs: seq<Segment>, texts: seq<string>, input: string,
                       at: seq<nat>, k: nat, found: seq<Found>, filled: string)
    requires Laid(input, texts, at) && k < |segs| == |texts|
    requires segs[k].Literal? && Lower(t.u, texts[k]) == Lower(t.u, segs[k].text)
    ensures Follows(t, specs, segs, texts, input, at, k, found, filled)
  {
    LaidAt(input, texts, at, k);
    assert |Lower(t.u, texts[k])| == |Lower(t.u, segs[k].text)|;
    LiteralFound(t.u, input, Progress(at[k], found, filled), segs[k].text);
    assert found + [] == found;
  }

  lemma SlotFollows(t: Tables, specs: seq<SlotSpec>, segs: seq<Segment>, texts: seq<string>, input: string,
                    at: seq<nat>, k: nat, found: seq<Found>, filled: string)
    requires Laid(input, texts, at) && k < |segs| == |texts| && segs[k].Slot?
    requires texts[k] != "" && IsTrimmed(t.u, texts[k]) && KindOk(t, specs, texts[k], segs[k].name)
    requires at[k] <= |input| && SlotEnd(t.u, segs, k, Lower(t.u, input), at[k]) == at[k + 1]
    ensures Follows(t, specs, segs, texts, input, at, k, found, filled)
  {
    LaidAt(input, texts, at, k);
    ValueFound(t, specs, input, Progress(at[k], found, filled), at[k + 1], segs[k].name);
  }

  /** One segment of a filled template, given that its own literal is placed. */
  lemma PlacedStepFollows(t: Tables, specs: seq<SlotSpec>, segs: seq<Segment>, texts: seq<string>, input: string,
                          at: seq<nat>, k: nat, found: seq<Found>, filled: string)
    requires Filling(t, specs, segs, texts) && Laid(input, texts, at) && NoAdjacentSlots(segs) && k < |segs|
    requires segs[k].Slot? && k + 1 < |segs| ==>
               at[k] <= |input| && Find(Lower(t.u, input)[at[k]..], Lower(t.u, segs[k + 1].text)) == Some(|texts[k]|)
    ensures Follows(t, specs, segs, texts, input, at, k, found, filled)
  {
    LaidAt(input, texts, at, k);
    if segs[k].Literal? {
      LiteralFollows(t, specs, segs, texts, input, at, k, found, filled);
    } else {
      assert k + 1 < |segs| ==> segs[k + 1].Literal?;
      SlotFollows(t, specs, segs, texts, input, at, k, found, filled);
    }
  }

  /** After k segments the walk stands where text k begins, with everything recorded. */
  ghost predicate StandsAt(t: Tables, specs: seq<SlotSpec>, segs: seq<Segment>, texts: seq<string>, input: string,
                           at: seq<nat>, k: nat)
  {
    && k <= |segs| == |texts| && |at| == |texts| + 1 && at[k] <= |input|
    && WalkTo(t, specs, segs, input, k) == Some(Progress(at[k], Recorded(segs, texts, at, k), Rebuilt(segs, texts, k)))
  }

  lemma StandsFurther(t: Tables, specs: seq<SlotSpec>, segs: seq<Segment>, texts: seq<string>, input: string,
                      at: seq<nat>, k: nat)
    requires StandsAt(t, specs, segs, texts, input, at, k) && k < |segs|
    requires Follows(t, specs, segs, texts, input, at, k, Recorded(segs, texts, at, k), Rebuilt(segs, texts, k))
    ensures StandsAt(t, specs, segs, texts, input, at, k + 1)
  {
    Advances(t, specs, segs, input, k, WalkTo(t, specs, segs, input, k).value,
             Step(t, specs, segs, input, k, WalkTo(t, specs, segs, input, k).value));
  }

  lemma StandsAtStart(t: Tables, specs: seq<SlotSpec>, segs: seq<Segment>, texts: seq<string>, input: string,
                      at: seq<nat>)
    requires |segs| == |texts| && |at| == |texts| + 1 && at[0] == 0
    ensures StandsAt(t, specs, segs, texts, input, at, 0)
  {
  }

  ghost function Stands(t: Tables, specs: seq<SlotSpec>, segs: seq<Segment>, texts: seq<string>, input: string,
                        at: seq<nat>): nat -> bool
  {
    (k: nat) => StandsAt(t, specs, segs, texts, input, at, k)
  }

  lemma FilledStep(t: Tables, specs: seq<SlotSpec>, segs: seq<Segment>, texts: seq<string>, input: string, at: seq<nat>,
                   k: nat)
    requires Fillable(t, specs, segs, texts, input, at) && k < |segs|
    requires StandsAt(t, specs, segs, texts, input, at, k)
    ensures StandsAt(t, specs, segs, texts, input, at, k + 1)
  {
    LaidAt(input, texts, at, k);
    PlacedStepFollows(t, specs, segs, texts, input, at, k, Recorded(segs, texts, at, k), Rebuilt(segs, texts, k));
    StandsFurther(t, specs, segs, texts, input, at, k);
  }

  lemma FilledSteps(t: Tables, specs: seq<SlotSpec>, segs: seq<Segment>, texts: seq<string>, input: string,
                    at: seq<nat>)
    requires Fillable(t, specs, segs, texts, input, at)
    ensures var stands := Stands(t, specs, segs, texts, input, at);
            forall k: nat {:trigger Below(k, |segs|)} :: Below(k, |segs|) && stands(k) ==> stands(k + 1)
  {
    forall k: nat | Below(k, |segs|) && StandsAt(t, specs, segs, texts, input, at, k)
      ensures StandsAt(t, specs, segs, texts, input, at, k + 1)
    {
      FilledStep(t, specs, segs, texts, input, at, k);
    }
  }

  lemma FilledWalk(t: Tables, specs: seq<SlotSpec>, segs: seq<Segment>, texts: seq<string>, input: string, at: seq<nat>)
    requires Fillable(t, specs, segs, texts, input, at)
    ensures StandsAt(t, specs, segs, texts, input, at, |segs|)
  {
    StandsAtStart(t, specs, segs, texts, input, at);
    FilledSteps(t, specs, segs, texts, input, at);
    Climb(Stands(t, specs, segs, texts, input, at), |segs|, |segs|);
  }

  /** Extraction undoes filling: the walk over a filled template records exactly the
      values put in, in their original case, and rebuilds what reads like the whole
      utterance. */
  lemma ExtractionUndoesFilling(t: Tables, specs: seq<SlotSpec>, segs: seq<Segment>, texts: seq<string>,
                                input: string, at: seq<nat>)
    requires Fillable(t, specs, segs, texts, input, at)
    ensures WalkTo(t, specs, segs, input, |segs|) ==
            Some(Progress(|input|, Recorded(segs, texts, at, |segs|), Rebuilt(segs, texts, |segs|)))
    ensures Lower(t.u, Rebuilt(segs, texts, |segs|)) == Lower(t.u, input)
  {
    FilledWalk(t, specs, segs, texts, input, at);
    RebuiltReads(t, specs, segs, texts, input, at);
  }

  // ----- Exactly when -----

  lemma StepGrows(t: Tables, specs: seq<SlotSpec>, segs: seq<Segment>, input: string, k: nat, p: Progress)
    requires k < |segs| && p.cursor <= |input|
    ensures var r := Step(t, specs, segs, input, k, p);
            && (segs[k].Literal? && r.Some? ==> r.value.found == p.found)
            && (segs[k].Slot? ==> r.Some? && |r.value.found| == |p.found| + 1 && p.found <= r.value.found)
  {
  }

  lemma GrowsOnce(t: Tables, specs: seq<SlotSpec>, segs: seq<Segment>, input: string, k: nat)
    requires k < |segs|
    ensures var p, q := WalkTo(t, specs, segs, input, k), WalkTo(t, specs, segs, input, k + 1);
            q.Some? ==> p.Some? && p.value.found <= q.value.found
  {
    if WalkTo(t, specs, segs, input, k).Some? {
      var p := WalkTo(t, specs, segs, input, k).value;
      Advances(t, specs, segs, input, k, p, Step(t, specs, segs, input, k, p));
      StepGrows(t, specs, segs, input, k, p);
    }
  }

  /** What the walk has recorded after k segments; nothing once it has failed. */
  function FoundBy(t: Tables, specs: seq<SlotSpec>, segs: seq<Segment>, input: string): nat -> Option<seq<Found>> {
    (k: nat) =>
      if k > |segs| || WalkTo(t, specs, segs, input, k).None? then None
      else Some(WalkTo(t, specs, segs, input, k).value.found)
  }

  lemma FoundByGrows(t: Tables, specs: seq<SlotSpec>, segs: seq<Segment>, input: string)
    ensures var found, n := FoundBy(t, specs, segs, input), |segs|;
            forall i: nat {:trigger Below(i, n)} :: Below(i, n) && found(i + 1).Some? ==>
              found(i).Some? && found(i).value <= found(i + 1).value
  {
    forall i: nat | Below(i, |segs|) && WalkTo(t, specs, segs, input, i + 1).Some?
      ensures WalkTo(t, specs, segs, input, i).Some?
      ensures WalkTo(t, specs, segs, input, i).value.found <= WalkTo(t, specs, segs, input, i + 1).value.found
    {
      GrowsOnce(t, specs, segs, input, i);
    }
  }

  lemma {:induction false} GrowsAlong(found: nat -> Option<seq<Found>>, k: nat, n: nat)
    requires k <= n && found(n).Some?
    requires forall i: nat {:trigger Below(i, n)} :: Below(i, n) && found(i + 1).Some? ==>
               found(i).Some? && found(i).value <= found(i + 1).value
    ensures found(k).Some? && found(k).value <= found(n).value
    decreases n - k
  {
    if k < n {
      GrowsAlong(found, k + 1, n);
      assert Below(k, n);
    }
  }

  lemma WalkGrows(t: Tables, specs: seq<SlotSpec>, segs: seq<Segment>, input: string, k: nat)
    requires k <= |segs| && WalkTo(t, specs, segs, input, |segs|).Some?
    ensures WalkTo(t, specs, segs, input, k).Some?
    ensures WalkTo(t, specs, segs, input, k).value.found <= WalkTo(t, specs, segs, input, |segs|).value.found
  {
    FoundByGrows(t, specs, segs, input);
    GrowsAlong(FoundBy(t, specs, segs, input), k, |segs|);
  }

  lemma {:induction false} RecordedGrows(segs: seq<Segment>, texts: seq<string>, at: seq<nat>, k: nat, n: nat)
    requires k <= n <= |segs| == |texts| < |at|
    ensures Recorded(segs, texts, at, k) <= Recorded(segs, texts, at, n)
    decreases n - k
  {
    if k < n {
      RecordedGrows(segs, texts, at, k, n - 1);
    }
  }

  /** A slot value that ends where it was put ends right before the next literal's first
      occurrence. */
  lemma EndIsPlaced(u: Unicode, segs: seq<Segment>, texts: seq<string>, input: string, at: seq<nat>, k: nat)
    requires Laid(input, texts, at) && |texts| == |segs| && k + 1 < |segs|
    requires segs[k].Slot? && segs[k + 1].Literal? && Lower(u, texts[k + 1]) == Lower(u, segs[k + 1].text)
    ensures at[k] <= at[k + 1] <= |input|
    ensures SlotEnd(u, segs, k, Lower(u, input), at[k]) <= at[k + 1]
    ensures SlotEnd(u, segs, k, Lower(u, input), at[k]) == at[k + 1] && at[k] < at[k + 1] ==>
              Find(Lower(u, input)[at[k]..], Lower(u, segs[k + 1].text)) == Some(at[k + 1] - at[k])
  {
    var text, next := texts[k], texts[k + 1];
    var low := Lower(u, input);
    LowerSlice(u, input, at[k + 1], at[k + 2]);
    assert low[at[k]..][at[k + 1] - at[k]..at[k + 1] - at[k] + |next|] == low[at[k + 1]..at[k + 2]];
    assert OccursAt(low[at[k]..], Lower(u, next), at[k + 1] - at[k]);
  }

  lemma ValueEndsBefore(t: Tables, specs: seq<SlotSpec>, input: string, p: Progress, end: nat, name: string,
                        value: string, from: nat, to: nat)
    requires p.cursor <= end <= |input|
    requires SlotStep(t, specs, input, p, end, name).found == p.found + [Found(name, Some(value), from, to)]
    ensures to <= end
  {
    TrimmedGap(t.u, input, p.cursor, end);
    var found := SlotStep(t, specs, input, p, end, name).found;
    assert found[|p.found|] == Found(name, Some(value), from, to);
  }

  /** The slot at k is where a walk that records what was put in must have found it. */
  lemma SlotPlaced(t: Tables, specs: seq<SlotSpec>, segs: seq<Segment>, texts: seq<string>, input: string, at: seq<nat>,
                   k: nat, p: Progress)
    requires Filling(t, specs, segs, texts) && Laid(input, texts, at) && NoAdjacentSlots(segs)
    requires k < |segs| && segs[k].Slot? && p.cursor == at[k] <= |input|
    requires Step(t, specs, segs, input, k, p).value.found ==
             p.found + [Found(segs[k].name, Some(texts[k]), at[k], at[k + 1])]
    ensures k + 1 < |segs| ==>
              Find(Lower(t.u, input)[at[k]..], Lower(t.u, segs[k + 1].text)) == Some(|texts[k]|)
  {
    LaidAt(input, texts, at, k);
    if k + 1 < |segs| {
      var end := SlotEnd(t.u, segs, k, Lower(t.u, input), p.cursor);
      ValueEndsBefore(t, specs, input, p, end, segs[k].name, texts[k], at[k], at[k + 1]);
      assert segs[k + 1].Literal?;
      EndIsPlaced(t.u, segs, texts, input, at, k);
    }
  }

  /** The walk records exactly what was put in. */
  ghost predicate Recovers(t: Tables, specs: seq<SlotSpec>, segs: seq<Segment>, texts: seq<string>, input: string,
                           at: seq<nat>)
    requires |segs| == |texts| < |at|
  {
    var p := WalkTo(t, specs, segs, input, |segs|);
    p.Some? && p.value.found == Recorded(segs, texts, at, |segs|)
  }

  ghost predicate PlacedBefore(u: Unicode, segs: seq<Segment>, texts: seq<string>, input: string, at: seq<nat>, k: nat)
    requires Laid(input, texts, at) && |texts| == |segs|
  {
    forall i {:trigger segs[i]} :: 0 <= i < |segs| - 1 && i < k && segs[i].Slot? && segs[i + 1].Literal? ==>
      at[i] <= |input| && Find(Lower(u, input)[at[i]..], Lower(u, segs[i + 1].text)) == Some(|texts[i]|)
  }

  lemma SameLengthPrefix(a: seq<Found>, b: seq<Found>, all: seq<Found>)
    requires a <= all && b <= all && |a| == |b|
    ensures a == b
  {
  }

  ghost function StandsPlaced(t: Tables, specs: seq<SlotSpec>, segs: seq<Segment>, texts: seq<string>, input: string,
                              at: seq<nat>): nat -> bool
    requires Laid(input, texts, at) && |texts| == |segs|
  {
    (k: nat) => StandsAt(t, specs, segs, texts, input, at, k) && PlacedBefore(t.u, segs, texts, input, at, k)
  }

  lemma PlacedGrows(u: Unicode, segs: seq<Segment>, texts: seq<string>, input: string, at: seq<nat>, k: nat)
    requires Laid(input, texts, at) && |texts| == |segs| && k < |segs| && PlacedBefore(u, segs, texts, input, at, k)
    requires k + 1 < |segs| && segs[k].Slot? && segs[k + 1].Literal? ==>
               at[k] <= |input| && Find(Lower(u, input)[at[k]..], Lower(u, segs[k + 1].text)) == Some(|texts[k]|)
    ensures PlacedBefore(u, segs, texts, input, at, k + 1)
  {
  }

  lemma FoundAgrees(t: Tables, specs: seq<SlotSpec>, segs: seq<Segment>, texts: seq<string>, input: string,
                    at: seq<nat>, k: nat, p: Progress)
    requires k < |segs| == |texts| < |at| && Recovers(t, specs, segs, texts, input, at)
    requires WalkTo(t, specs, segs, input, k) == Some(p) && p.found == Recorded(segs, texts, at, k)
    ensures var r := Step(t, specs, segs, input, k, p);
            r.Some? && r.value.found == p.found + RecordOf(segs, texts, at, k)
  {
    WalkGrows(t, specs, segs, input, k + 1);
    RecordedGrows(segs, texts, at, k + 1, |segs|);
    StepGrows(t, specs, segs, input, k, p);
    SameLengthPrefix(WalkTo(t, specs, segs, input, k + 1).value.found, Recorded(segs, texts, at, k + 1),
                     Recorded(segs, texts, at, |segs|));
  }

  lemma RecoveredStep(t: Tables, specs: seq<SlotSpec>, segs: seq<Segment>, texts: seq<string>, input: string,
                      at: seq<nat>, k: nat)
    requires Filling(t, specs, segs, texts) && Laid(input, texts, at) && NoAdjacentSlots(segs) && k < |segs|
    requires Recovers(t, specs, segs, texts, input, at)
    requires StandsAt(t, specs, segs, texts, input, at, k) && PlacedBefore(t.u, segs, texts, input, at, k)
    ensures StandsAt(t, specs, segs, texts, input, at, k + 1) && PlacedBefore(t.u, segs, texts, input, at, k + 1)
  {
    var p := WalkTo(t, specs, segs, input, k).value;
    FoundAgrees(t, specs, segs, texts, input, at, k, p);
    if segs[k].Slot? {
      SlotPlaced(t, specs, segs, texts, input, at, k, p);
    }
    PlacedStepFollows(t, specs, segs, texts, input, at, k, p.found, p.filled);
    StandsFurther(t, specs, segs, texts, input, at, k);
    PlacedGrows(t.u, segs, texts, input, at, k);
  }

  lemma RecoveredSteps(t: Tables, specs: seq<SlotSpec>, segs: seq<Segment>, texts: seq<string>, input: string,
                       at: seq<nat>)
    requires Filling(t, specs, segs, texts) && Laid(input, texts, at) && NoAdjacentSlots(segs)
    requires Recovers(t, specs, segs, texts, input, at)
    ensures var stands := StandsPlaced(t, specs, segs, texts, input, at);
            forall k: nat {:trigger Below(k, |segs|)} :: Below(k, |segs|) && stands(k) ==> stands(k + 1)
  {
    forall k: nat | Below(k, |segs|) && StandsAt(t, specs, segs, texts, input, at, k)
                    && PlacedBefore(t.u, segs, texts, input, at, k)
      ensures StandsAt(t, specs, segs, texts, input, at, k + 1) && PlacedBefore(t.u, segs, texts, input, at, k + 1)
    {
      RecoveredStep(t, specs, segs, texts, input, at, k);
    }
  }

  lemma RecoveredWalk(t: Tables, specs: seq<SlotSpec>, segs: seq<Segment>, texts: seq<string>, input: string,
                      at: seq<nat>)
    requires Filling(t, specs, segs, texts) && Laid(input, texts, at) && NoAdjacentSlots(segs)
    requires Recovers(t, specs, segs, texts, input, at)
    ensures PlacedBefore(t.u, segs, texts, input, at, |segs|)
  {
    StandsAtStart(t, specs, segs, texts, input, at);
    RecoveredSteps(t, specs, segs, texts, input, at);
    Climb(StandsPlaced(t, specs, segs, texts, input, at), |segs|, |segs|);
  }

  /** Exactly when: for values that respect their kinds in a template without adjacent
      slots, the walk gives back what was put in if and only if each literal first
      occurs where it was placed. */
  lemma ExtractionUndoesFillingIff(t: Tables, specs: seq<SlotSpec>, segs: seq<Segment>, texts: seq<string>,
                                   input: string, at: seq<nat>)
    requires Filling(t, specs, segs, texts) && Laid(input, texts, at) && NoAdjacentSlots(segs)
    ensures Recovers(t, specs, segs, texts, input, at) <==> FirstWherePlaced(t.u, segs, texts, input, at)
  {
    if FirstWherePlaced(t.u, segs, texts, input, at) {
      ExtractionUndoesFilling(t, specs, segs, texts, input, at);
    }
    if Recovers(t, specs, segs, texts, input, at) {
      RecoveredWalk(t, specs, segs, texts, input, at);
    }
  }

  // ----- A missing value -----

  lemma {:induction false} TrimEndOfLower(u: Unicode, s: string)
    requires u.Lawful()
    ensures TrimEnd(u, Lower(u, s)) == Lower(u, TrimEnd(u, s))
  {
    if s != "" {
      assert u.isSpace(u.lower(s[|s| - 1])) == u.isSpace(s[|s| - 1]);
      if u.isSpace(s[|s| - 1]) {
        TrimEndOfLower(u, s[..|s| - 1]);
        assert Lower(u, s)[..|s| - 1] == Lower(u, s[..|s| - 1]);
      }
    }
  }

  lemma NothingLeft(t: Tables, specs: seq<SlotSpec>, segs: seq<Segment>, input: string, k: nat, p: Progress)
    requires k == |segs| - 1 && segs[k].Slot? && p.cursor == |input|
    ensures Step(t, specs, segs, input, k, p)
         == Some(Progress(|input|, p.found + [Found(segs[k].name, None, |input|, |input|)], p.filled))
  {
    assert input[|input|..|input|] == "" && Trim(t.u, "") == "";
  }

  lemma FindWhole(s: string)
    ensures Find(s, s) == Some(0)
  {
    assert s[0..0 + |s|] == s;
    FindIs(s, s, 0);
  }

  lemma FindLonger(hay: string, needle: string)
    requires |hay| < |needle|
    ensures Find(hay, needle).None?
  {
  }

  lemma SecondTry(u: Unicode, low: string, p: Progress, text: string)
    requires p.cursor <= |low| && Find(low[p.cursor..], Lower(u, text)).None?
    requires Find(low[p.cursor..], TrimEnd(u, Lower(u, text))) == Some(0)
    ensures LiteralStep(u, low, p, text) ==
            Some(Progress(p.cursor + |TrimEnd(u, Lower(u, text))|, p.found, p.filled + TrimEnd(u, text)))
  {
  }

  /** What is left is the literal without its trailing white space. */
  lemma TrimmedLiteral(u: Unicode, low: string, p: Progress, text: string)
    requires p.cursor <= |low| && |low| - p.cursor < |text|
    requires low[p.cursor..] == TrimEnd(u, Lower(u, text))
    ensures LiteralStep(u, low, p, text) == Some(Progress(|low|, p.found, p.filled + TrimEnd(u, text)))
  {
    FindWhole(low[p.cursor..]);
    FindLonger(low[p.cursor..], Lower(u, text));
    SecondTry(u, low, p, text);
  }

  lemma LastLiteral(u: Unicode, input: string, p: Progress, text: string)
    requires u.Lawful() && p.cursor <= |input| && |input| - p.cursor < |text|
    requires Lower(u, input[p.cursor..]) == Lower(u, TrimEnd(u, text))
    ensures LiteralStep(u, Lower(u, input), p, text) ==
            Some(Progress(|input|, p.found, p.filled + TrimEnd(u, text)))
  {
    TrimEndOfLower(u, text);
    assert Lower(u, input)[p.cursor..] == Lower(u, input[p.cursor..]);
    TrimmedLiteral(u, Lower(u, input), p, text);
  }

  lemma TwoSteps(t: Tables, specs: seq<SlotSpec>, segs: seq<Segment>, input: string, n: nat, p: Progress, q: Progress)
    requires n + 2 <= |segs| && q.cursor <= |input|
    requires WalkTo(t, specs, segs, input, n) == Some(p) && Step(t, specs, segs, input, n, p) == Some(q)
    ensures WalkTo(t, specs, segs, input, n + 2) == Step(t, specs, segs, input, n + 1, q)
  {
    assert WalkTo(t, specs, segs, input, n + 1) == Some(q);
  }

  /** Any template whose last slot's value is missing still matches: when the walk has
      reached the last literal and what is left of the utterance reads, in whatever case,
      like that literal without its trailing white space, the last slot is null, so that
      the router can ask. */
  lemma MissingValueIsNull(t: Tables, specs: seq<SlotSpec>, segs: seq<Segment>, input: string, n: nat, p: Progress)
    requires t.u.Lawful() && |segs| == n + 2 && segs[n].Literal? && segs[n + 1].Slot?
    requires WalkTo(t, specs, segs, input, n) == Some(p)
    requires Lower(t.u, input[p.cursor..]) == Lower(t.u, TrimEnd(t.u, segs[n].text))
    requires |input| - p.cursor < |segs[n].text|
    ensures WalkTo(t, specs, segs, input, n + 2)
         == Some(Progress(|input|, p.found + [Found(segs[n + 1].name, None, |input|, |input|)],
                          p.filled + TrimEnd(t.u, segs[n].text)))
  {
    var q := Progress(|input|, p.found, p.filled + TrimEnd(t.u, segs[n].text));
    LastLiteral(t.u, input, p, segs[n].text);
    NothingLeft(t, specs, segs, input, n + 1, q);
    TwoSteps(t, specs, segs, input, n, p, q);
  }
}
