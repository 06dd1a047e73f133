/** The satellite's DC-blocking high-pass filter, y[n] = x[n] - x[n-1] + a y[n-1]
    with a = 255/256 in Q8 fixed point on i32. */
module DcBlocking {
  import opened Ints

  const SAMPLE_MIN: int := -0x8000
  const SAMPLE_MAX: int := 0x7FFF

  /** The filter's memory as plain integers. */
  datatype Filter = Filter(prevX: int, yQ8: int)

  /** Arithmetic shift right by eight: rounds towards minus infinity. */
  function Shr8(v: int): int {
    v / 256
  }

  function Feed(f: Filter, x: int): Filter {
    Filter(x, (x - f.prevX) * 256 + f.yQ8 - Shr8(f.yQ8))
  }

  function FeedAll(f: Filter, xs: seq<i16>): Filter {
    if xs == [] then f else Feed(FeedAll(f, xs[..|xs| - 1]), xs[|xs| - 1] as int)
  }

  function Output(f: Filter): (s: i16) {
    var v := Shr8(f.yQ8);
    if v < SAMPLE_MIN then -0x8000 else if SAMPLE_MAX < v then 0x7FFF else v as i16
  }

  function Outputs(f: Filter, xs: seq<i16>): (ys: seq<i16>)
    ensures |ys| == |xs|
  {
    seq(|xs|, i requires 0 <= i < |xs| => Output(FeedAll(f, xs[..i + 1])))
  }

  // ----- No overflow -----

  /** What the input still owes the filter. It moves by prevX - ceil(Hidden/256),
      a leaky average of the input, which is why it cannot leave the input's range. */
  function Hidden(f: Filter): int {
    256 * f.prevX - f.yQ8
  }

  ghost predicate InBand(f: Filter) {
    && SAMPLE_MIN <= f.prevX <= SAMPLE_MAX
    && 256 * SAMPLE_MIN <= Hidden(f) <= 256 * SAMPLE_MAX
  }

  lemma FeedStaysInBand(f: Filter, x: int)
    requires InBand(f) && SAMPLE_MIN <= x <= SAMPLE_MAX
    ensures InBand(Feed(f, x))
    ensures Hidden(Feed(f, x)) == Hidden(f) + Shr8(f.yQ8)
  {
  }

  /** For every sample sequence, however long, started from silence: the hidden
      quantity stays in the input's range, so |y| <= 256 * 65535. */
  lemma {:induction false} NeverOverflows(xs: seq<i16>)
    ensures InBand(FeedAll(Filter(0, 0), xs))
    ensures -256 * 65535 <= FeedAll(Filter(0, 0), xs).yQ8 <= 256 * 65535
  {
    if xs != [] {
      var init := xs[..|xs| - 1];
      NeverOverflows(init);
      FeedStaysInBand(FeedAll(Filter(0, 0), init), xs[|xs| - 1] as int);
    }
  }

  // ----- Constant input decays to exactly zero -----

  /** Distance of y from the band [0, 255] whose output is 0. */
  function Residue(f: Filter): nat {
    if f.yQ8 < 0 then -f.yQ8 else if f.yQ8 < 256 then 0 else f.yQ8 - 255
  }

  function Repeat(x: i16, n: nat): (xs: seq<i16>)
    ensures |xs| == n
  {
    seq(n, _ => x)
  }

  lemma HeldInputDecays(f: Filter)
    ensures Residue(f) == 0 ==> Residue(Feed(f, f.prevX)) == 0
    ensures Residue(f) != 0 ==> Residue(Feed(f, f.prevX)) < Residue(f)
  {
  }

  lemma {:induction false} HeldInputResidue(f: Filter, x: i16, n: nat)
    requires f.prevX == x as int
    ensures FeedAll(f, Repeat(x, n)).prevX == x as int
    ensures Residue(FeedAll(f, Repeat(x, n))) <= if n < Residue(f) then Residue(f) - n else 0
  {
    if n != 0 {
      HeldInputResidue(f, x, n - 1);
      assert Repeat(x, n)[..n - 1] == Repeat(x, n - 1);
      HeldInputDecays(FeedAll(f, Repeat(x, n - 1)));
    }
  }

  lemma {:induction false} FeedAllAppend(f: Filter, xs: seq<i16>, ys: seq<i16>)
    ensures FeedAll(f, xs + ys) == FeedAll(FeedAll(f, xs), ys)
  {
    if ys == [] {
      assert xs + ys == xs;
    } else {
      var init := ys[..|ys| - 1];
      FeedAllAppend(f, xs, init);
      assert (xs + ys)[..|xs + ys| - 1] == xs + init;
    }
  }

  /** Held input from any reachable state: the residue is worn off sample by sample. */
  lemma HeldInputIsSilenced(f: Filter, x: i16, n: nat)
    requires InBand(f) && 256 * 65535 < n
    ensures Output(FeedAll(f, Repeat(x, n))) == 0
  {
    var first := Feed(f, x as int);
    FeedStaysInBand(f, x as int);
    assert Repeat(x, n) == [x] + Repeat(x, n - 1);
    FeedAllAppend(f, [x], Repeat(x, n - 1));
    assert FeedAll(f, [x]) == first by {
      assert [x][..0] == [];
    }
    HeldInputResidue(first, x, n - 1);
  }

  /** Whatever was recorded before, a constant input is silenced: from some
      sample count on, every output is exactly 0. */
  lemma ConstantInputIsSilenced(before: seq<i16>, x: i16, n: nat)
    requires 256 * 65535 < n
    ensures Output(FeedAll(Filter(0, 0), before + Repeat(x, n))) == 0
  {
    NeverOverflows(before);
    FeedAllAppend(Filter(0, 0), before, Repeat(x, n));
    HeldInputIsSilenced(FeedAll(Filter(0, 0), before), x, n);
  }

  // ----- What the filter puts out -----

  /** The output for y: its 256th, rounded down, or the nearer bound of i16. */
  ghost predicate Reads(y: int, out: int) {
    if y < 256 * -0x8000 then out == -0x8000
    else if 256 * 0x8000 <= y then out == 0x7FFF
    else 256 * out <= y < 256 * out + 256
  }

  predicate LeaksBy(f: Filter, leak: int) {
    256 * leak <= f.yQ8 < 256 * leak + 256
  }

  /** One sample moves the memory by 256 times its difference to the one before, and
      leaks a 256th, rounded down. */
  ghost predicate Filters(f: Filter, x: int, g: Filter) {
    && g.prevX == x
    && exists leak: int :: LeaksBy(f, leak) && g.yQ8 == 256 * (x - f.prevX) + f.yQ8 - leak
  }

  lemma FeedFilters(f: Filter, x: int)
    ensures Filters(f, x, Feed(f, x))
  {
    assert LeaksBy(f, Shr8(f.yQ8));
  }

  /** Memories that follow the filter's equation sample by sample, with the outputs read
      off them. */
  ghost predicate IsPath(ms: seq<Filter>, xs: seq<i16>, outs: seq<i16>) {
    && |ms| == |xs| + 1 && |outs| == |xs|
    && forall i :: 0 <= i < |xs| ==>
         Filters(ms[i], xs[i] as int, ms[i + 1]) && Reads(ms[i + 1].yQ8, outs[i] as int)
  }

  /** Every frame is filtered so, from every memory. */
  lemma FrameIsFiltered(f: Filter, xs: seq<i16>)
    ensures exists ms: seq<Filter> :: IsPath(ms, xs, Outputs(f, xs)) && ms[0] == f && ms[|xs|] == FeedAll(f, xs)
  {
    var ms := seq(|xs| + 1, i requires 0 <= i <= |xs| => FeedAll(f, xs[..i]));
    assert xs[..|xs|] == xs;
    forall i | 0 <= i < |xs|
      ensures Filters(ms[i], xs[i] as int, ms[i + 1]) && Reads(ms[i + 1].yQ8, Outputs(f, xs)[i] as int)
    {
      assert xs[..i + 1][..i] == xs[..i];
      FeedFilters(ms[i], xs[i] as int);
    }
    assert IsPath(ms, xs, Outputs(f, xs));
  }

  lemma WholeSteps(d: int, y: int)
    requires 0 <= y < 256
    ensures Shr8(y) == 0 && Shr8(256 * d + y) == d
  {
  }

  /** From a settled memory a sample comes out as its difference to the one before,
      clamped to i16. */
  lemma SettledSamplePasses(f: Filter, x: i16)
    requires 0 <= f.yQ8 < 256
    ensures var d := x as int - f.prevX;
            Outputs(f, [x])[0] as int == if d < -0x8000 then -0x8000 else if 0x7FFF < d then 0x7FFF else d
  {
    assert [x][..0 + 1] == [x] && [x][..0] == [];
    assert FeedAll(f, [x][..0]) == f;
    assert FeedAll(f, [x][..0 + 1]) == Feed(f, x as int);
    assert Outputs(f, [x])[0] == Output(Feed(f, x as int));
    WholeSteps(x as int - f.prevX, f.yQ8);
    assert Feed(f, x as int).yQ8 == 256 * (x as int - f.prevX) + f.yQ8;
  }

  /** The i32 object: every intermediate of Process is checked against i32. */
  class DcBlocker {
    var prevX: i32
    var yQ8: i32

    ghost function View(): Filter
      reads this
    {
      Filter(prevX as int, yQ8 as int)
    }

    ghost predicate Valid()
      reads this
    {
      InBand(View())
    }

    constructor ()
      ensures Valid() && View() == Filter(0, 0)
    {
      prevX, yQ8 := 0, 0;
    }

    method Process(samples: array<i16>)
      requires Valid()
      modifies this, samples
      ensures Valid()
      ensures View() == FeedAll(old(View()), old(samples[..]))
      ensures samples[..] == Outputs(old(View()), old(samples[..]))
    {
      ghost var input := samples[..];
      ghost var start := View();
      for i := 0 to samples.Length
        invariant Valid()
        invariant View() == FeedAll(start, input[..i])
        invariant samples[..i] == Outputs(start, input)[..i]
        invariant samples[i..] == input[i..]
      {
        assert samples[i] == samples[i..][0] == input[i];
        assert input[..i + 1][..i] == input[..i];
        samples[i] := Sample(samples[i]);
        assert samples[i + 1..] == input[i + 1..];
      }
      assert input[..samples.Length] == input;
      assert samples[..] == samples[..samples.Length];
    }

    /** The loop's body: one sample in, one out. */
    method Sample(sample: i16) returns (out: i16)
      requires Valid()
      modifies this
      ensures Valid() && View() == Feed(old(View()), sample as int) && out == Output(View())
    {
      var x := sample as i32;
      FeedStaysInBand(View(), x as int);
      yQ8 := (x - prevX) * 256 + yQ8 - yQ8 / 256;
      prevX := x;
      var v := yQ8 / 256;
      out := if v < -0x8000 then -0x8000 else if 0x7FFF < v then 0x7FFF else v as i16;
    }
  }
}
