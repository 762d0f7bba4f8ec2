/** The pre-filter of `get_pixels_for_image`: near-black pixels are dropped
    before clustering, and the share that was dropped is reported as an
    integer percentage. */
module PixelFilter {
  import opened Colour
  import opened Results

  /** Colours darker than this are ignored. */
  const LightnessThreshold: real := 0.05

  /** The decoded image after filtering, with the reported percentage. */
  datatype Filtered = Filtered(pixels: seq<Hsl>, percentRemoved: int)

  /** The pixels that the boolean mask `lightness > threshold` selects. */
  function Filter(pixels: seq<Hsl>, threshold: real): (kept: seq<Hsl>)
    ensures |kept| <= |pixels|
    ensures forall c :: c in kept ==> c in pixels && c.l > threshold
    ensures forall c :: c in pixels && c.l > threshold ==> c in kept
  {
    if pixels == [] then []
    else if pixels[0].l > threshold then [pixels[0]] + Filter(pixels[1..], threshold)
    else Filter(pixels[1..], threshold)
  }

  /** `100 - (100 * after) // before`, with Python's floor division; a zero
      pixel count raises. */
  function PercentRemoved(before: nat, after: nat): (r: Result<int>)
    ensures r.Err? <==> before == 0
    ensures r.Err? ==> r.error == NoPixels
  {
    if before == 0 then Err(NoPixels) else Ok(100 - (100 * after) / before)
  }

  /** The filtering step for one decoded image. */
  function FilterPixels(pixels: seq<Hsl>): (r: Result<Filtered>)
    ensures r.Err? <==> pixels == []
    ensures r.Ok? ==> r.value.pixels == Filter(pixels, LightnessThreshold)
    ensures r.Ok? ==> Ok(r.value.percentRemoved) == PercentRemoved(|pixels|, |r.value.pixels|)
  {
    var kept := Filter(pixels, LightnessThreshold);
    match PercentRemoved(|pixels|, |kept|)
    case Ok(p) => Ok(Filtered(kept, p))
    case Err(e) => Err(e)
  }

  /** The filter works element by element, so it keeps the order of the
      pixels: filtering a concatenation filters each part. */
  lemma {:induction false} FilterAppend(a: seq<Hsl>, b: seq<Hsl>, threshold: real)
    ensures Filter(a + b, threshold) == Filter(a, threshold) + Filter(b, threshold)
  {
    if a == [] {
      assert a + b == b;
    } else {
      assert (a + b)[1..] == a[1..] + b;
      FilterAppend(a[1..], b, threshold);
    }
  }

  /** Filtering twice drops nothing more. */
  lemma {:induction false} FilterIdempotent(pixels: seq<Hsl>, threshold: real)
    ensures Filter(Filter(pixels, threshold), threshold) == Filter(pixels, threshold)
  {
    if pixels != [] {
      FilterIdempotent(pixels[1..], threshold);
    }
  }

  /** Exactly the pixels that are too dark are dropped, each with its
      multiplicity. */
  lemma {:induction false} FilterCounts(pixels: seq<Hsl>, threshold: real, c: Hsl)
    ensures multiset(Filter(pixels, threshold))[c] == if c.l > threshold then multiset(pixels)[c] else 0
  {
    if pixels != [] {
      assert pixels == [pixels[0]] + pixels[1..];
      FilterCounts(pixels[1..], threshold, c);
    }
  }

  /** An image whose pixels are all bright enough passes unchanged. */
  lemma {:induction false} FilterKeepsBright(pixels: seq<Hsl>, threshold: real)
    requires forall k :: 0 <= k < |pixels| ==> pixels[k].l > threshold
    ensures Filter(pixels, threshold) == pixels
  {
    if pixels != [] {
      FilterKeepsBright(pixels[1..], threshold);
    }
  }

  /** Pixels that are all too dark are all dropped. */
  lemma {:induction false} FilterDropsDark(pixels: seq<Hsl>, threshold: real)
    requires forall k :: 0 <= k < |pixels| ==> pixels[k].l <= threshold
    ensures Filter(pixels, threshold) == []
  {
    if pixels != [] {
      FilterDropsDark(pixels[1..], threshold);
    }
  }

  /** An image that is entirely near-black is filtered to nothing and reported
      as 100% removed; the script does not stop there. */
  lemma {:induction false} AllDarkRemovesAll(pixels: seq<Hsl>)
    requires pixels != []
    requires forall k :: 0 <= k < |pixels| ==> pixels[k].l <= LightnessThreshold
    ensures FilterPixels(pixels) == Ok(Filtered([], 100))
  {
    FilterDropsDark(pixels, LightnessThreshold);
  }

  /** The reported percentage lies in [0, 100]; it is 0 exactly when nothing
      was dropped and 100 exactly when less than one percent survived. */
  lemma PercentBounds(before: nat, after: nat)
    requires 0 < before && after <= before
    ensures 0 <= PercentRemoved(before, after).value <= 100
    ensures PercentRemoved(before, after).value == 0 <==> after == before
    ensures PercentRemoved(before, after).value == 100 <==> 100 * after < before
  {
    var n := 100 * after;
    var q := n / before;
    var rem := n % before;
    assert n == q * before + rem && 0 <= rem < before;
    assert 0 <= q by {
      if q < 0 { MulMonotone(q, -1, before); }
    }
    assert q <= 100 by {
      if q > 100 { MulMonotone(101, q, before); }
    }
    assert q == 100 <==> after == before by {
      if after < before {
        MulMonotone(after + 1, before, 100);
        if q >= 100 { MulMonotone(100, q, before); }
      } else {
        assert n == 100 * before;
        if q < 100 { MulMonotone(q + 1, 100, before); }
      }
    }
    assert q == 0 <==> n < before by {
      if q >= 1 { MulMonotone(1, q, before); }
    }
  }

  lemma MulMonotone(a: int, b: int, c: nat)
    requires a <= b
    ensures a * c <= b * c
  {
    assert b * c - a * c == (b - a) * c;
  }
}
