/**
 * The photo normaliser that the `upload` and `edit` handlers of app/routes.py
 * run on an uploaded picture: shrink it until width plus height is at most 600,
 * then encode it as JPEG, stepping the quality down from 85 while the encoding
 * is over 50 KiB.
 *
 * Decoding, resampling and JPEG encoding belong to the imaging library; they
 * are the two functions of a `Codec`, about which nothing is assumed.
 */
module Normaliser {

  newtype byte = x: int | 0 <= x < 256

  /** A decoded picture: its dimensions and its (opaque) pixel data. */
  datatype Image = Image(width: nat, height: nat, pixels: seq<byte>)

  /** The imaging library: `resample(image, w, h)` gives the pixels of the
      picture resized to w by h, `encodeJpeg(image, quality)` its JPEG bytes. */
  datatype Codec = Codec(resample: (Image, nat, nat) -> seq<byte>, encodeJpeg: (Image, int) -> seq<byte>)

  /** The limit on width plus height. */
  const MaxSum: nat := 600
  /** The size an encoding should not exceed, in bytes. */
  const MaxBytes: nat := 50 * 1024
  const InitialQuality: int := 85
  /** The loop runs only while the quality is above this. */
  const QualityFloor: int := 10
  const QualityStep: int := 5
  /** The lowest quality at which the loop encodes. */
  const LowestQuality: int := QualityFloor + QualityStep

  /*************************************************************************
   * The dimension budget
   *************************************************************************/

  /** If q * s lies strictly between (n - 2) * s and (n + 1) * s, then
      n - 1 <= q <= n. */
  lemma QuotientBetween(q: int, n: int, s: int)
    requires s > 0
    requires (n - 2) * s < q * s < (n + 1) * s
    ensures n - 1 <= q <= n
  {
  }

  /** Rounding each of two parts down loses less than one unit each, and the
      parts of a whole number lose a whole number together. */
  lemma SumOfFloors(a: nat, b: nat, s: nat, n: nat)
    requires s > 0 && a + b == n * s
    ensures n - 1 <= a / s + b / s <= n
  {
    var q1, r1, q2, r2 := a / s, a % s, b / s, b % s;
    assert a == q1 * s + r1 && 0 <= r1 < s;
    assert b == q2 * s + r2 && 0 <= r2 < s;
    assert (q1 + q2) * s == q1 * s + q2 * s;
    assert (q1 + q2) * s == n * s - (r1 + r2);
    assert (n - 2) * s == n * s - 2 * s;
    assert (n + 1) * s == n * s + s;
    QuotientBetween(q1 + q2, n, s);
  }

  /** Scaling by m / s with m < s does not make a side longer. */
  lemma ScaledNotLonger(x: nat, m: nat, s: nat)
    requires 0 < m < s
    ensures x * m / s <= x
  {
  }

  /** The new dimensions: when width plus height exceeds the budget, each side
      is scaled by 600 / (width + height) and rounded down. The source computes
      the ratio in floating point; this is exact integer arithmetic. Over budget,
      the new sum is 599 or 600 and neither side grows; within budget nothing
      changes. */
  function ScaledSize(width: nat, height: nat): (size: (nat, nat))
    ensures width + height <= MaxSum ==> size == (width, height)
    ensures width + height > MaxSum ==>
      && MaxSum - 1 <= size.0 + size.1 <= MaxSum
      && size.0 <= width && size.1 <= height
  {
    if width + height <= MaxSum then (width, height)
    else
      var s := width + height;
      assert width * MaxSum + height * MaxSum == MaxSum * s;
      SumOfFloors(width * MaxSum, height * MaxSum, s, MaxSum);
      ScaledNotLonger(width, MaxSum, s);
      ScaledNotLonger(height, MaxSum, s);
      (width * MaxSum / s, height * MaxSum / s)
  }

  /** The 2000 by 1000 picture becomes 400 by 200. */
  lemma ScaledSizeExample()
    ensures ScaledSize(2000, 1000) == (400, 200)
  {
  }

  /** The picture after the dimension step. */
  function Downscale(img: Image, codec: Codec): (r: Image)
    ensures img.width + img.height <= MaxSum ==> r == img
    ensures r.width + r.height <= MaxSum
    ensures r.width <= img.width && r.height <= img.height
  {
    if img.width + img.height > MaxSum then
      var size := ScaledSize(img.width, img.height);
      Image(size.0, size.1, codec.resample(img, size.0, size.1))
    else img
  }

  /*************************************************************************
   * The quality ladder
   *************************************************************************/

  /** The quality whose encoding is stored, looking down the ladder from q in
      steps of 5: the first quality whose encoding fits in MaxBytes, or 15 when
      none does. */
  function FirstFit(img: Image, codec: Codec, q: int): (r: int)
    requires q >= LowestQuality && q % QualityStep == 0
    ensures LowestQuality <= r <= q && r % QualityStep == 0
    ensures |codec.encodeJpeg(img, r)| <= MaxBytes || r == LowestQuality
    decreases q
  {
    if |codec.encodeJpeg(img, q)| <= MaxBytes || q - QualityStep <= QualityFloor then q
    else FirstFit(img, codec, q - QualityStep)
  }

  /** Every quality on the ladder above the chosen one gave an encoding over
      budget: the choice is the first fit, looking down from q. */
  lemma {:induction false} AboveFirstFitOverBudget(img: Image, codec: Codec, q: int, k: int)
    requires q >= LowestQuality && q % QualityStep == 0
    requires FirstFit(img, codec, q) < k <= q && k % QualityStep == 0
    ensures |codec.encodeJpeg(img, k)| > MaxBytes
    decreases q
  {
    if k < q {
      AboveFirstFitOverBudget(img, codec, q - QualityStep, k);
    }
  }

  /** The rungs from `from` down to `to`, in steps of 5. */
  function Ladder(from: int, to: int): (r: seq<int>)
    requires to <= from
  {
    seq((from - to) / QualityStep + 1, k => from - QualityStep * k)
  }

  /** The ladder from a rung to itself is that rung. */
  lemma LadderStart(from: int)
    ensures Ladder(from, from) == [from]
  {
  }

  /** Going one rung further down appends that rung. */
  lemma LadderExtend(from: int, to: int)
    requires to <= from && (from - to) % QualityStep == 0
    ensures Ladder(from, to - QualityStep) == Ladder(from, to) + [to - QualityStep]
  {
    var a, b := Ladder(from, to - QualityStep), Ladder(from, to) + [to - QualityStep];
    assert |a| == |b|;
    forall k | 0 <= k < |a|
      ensures a[k] == b[k]
    {
      if k < |a| - 1 {
        assert b[k] == from - QualityStep * k;
      }
    }
  }

  /** The qualities the recompression loop encodes at, in order: 85 for the
      first encoding; then, when that is over budget, 85 again and every rung
      down to the chosen quality. */
  function Trace(img: Image, codec: Codec): (t: seq<int>)
    ensures |t| > 0 && t[0] == InitialQuality
    ensures t[|t| - 1] == FirstFit(img, codec, InitialQuality)
  {
    if |codec.encodeJpeg(img, InitialQuality)| <= MaxBytes then [InitialQuality]
    else [InitialQuality] + Ladder(InitialQuality, FirstFit(img, codec, InitialQuality))
  }

  /** Every quality the loop encodes at is a rung between 15 and 85, and
      after the repeated first encoding each one is 5 below the previous. */
  lemma TraceStepsDown(img: Image, codec: Codec)
    ensures var t := Trace(img, codec);
      && (forall k :: 0 <= k < |t| ==> t[k] % QualityStep == 0 && LowestQuality <= t[k] <= InitialQuality)
      && (forall k :: 1 < k < |t| ==> t[k] == t[k - 1] - QualityStep)
  {
  }

  /** The bytes the normaliser stores for an uploaded picture. */
  function Normalized(img: Image, codec: Codec): seq<byte> {
    var scaled := Downscale(img, codec);
    codec.encodeJpeg(scaled, FirstFit(scaled, codec, InitialQuality))
  }

  /** The recompression loop. The picture is encoded at 85; while the last
      encoding is over 50 KiB and the quality above 10, it is encoded again at
      the current quality, which then drops by 5. So the first pass repeats the
      encoding at 85, and the last encoding the loop can make is at 15.
      `tried` lists the qualities encoded, in order; the result is the last
      encoding made. */
  method Recompress(image: Image, codec: Codec) returns (bytes: seq<byte>, ghost tried: seq<int>)
    ensures bytes == codec.encodeJpeg(image, FirstFit(image, codec, InitialQuality))
    ensures |bytes| <= MaxBytes || bytes == codec.encodeJpeg(image, LowestQuality)
    ensures tried == Trace(image, codec)
    ensures |tried| > 0 && tried[0] == InitialQuality
    ensures bytes == codec.encodeJpeg(image, tried[|tried| - 1])
    ensures forall k :: 0 <= k < |tried| ==> LowestQuality <= tried[k] <= InitialQuality
  {
    var imgBytes := codec.encodeJpeg(image, InitialQuality);
    var quality := InitialQuality;
    tried := [InitialQuality];
    ghost var n := 0;  // passes made so far
    while |imgBytes| > MaxBytes && quality > QualityFloor
      invariant LoopState(image, codec, n, quality, imgBytes, tried)
      decreases quality
    {
      PassKeeps(image, codec, n, quality, imgBytes, tried);
      imgBytes := codec.encodeJpeg(image, quality);
      tried := tried + [quality];
      quality := quality - QualityStep;
      n := n + 1;
    }
    LoopExit(image, codec, n, quality, imgBytes, tried);
    bytes := imgBytes;
    TraceStepsDown(image, codec);
  }

  /** What the loop knows after n passes: the quality has dropped by 5 per
      pass; the last encoding is at 85 before the first pass and at the
      quality of the previous pass after it; the choice looking down from
      there is the choice from 85; and the trace so far is 85, then the
      rungs from 85 down to the last one. */
  ghost predicate LoopState(image: Image, codec: Codec, n: nat, quality: int, imgBytes: seq<byte>, tried: seq<int>) {
    var last := if n == 0 then InitialQuality else quality + QualityStep;
    && n <= 15 && quality == InitialQuality - QualityStep * n
    && last % QualityStep == 0 && last >= LowestQuality
    && imgBytes == codec.encodeJpeg(image, last)
    && FirstFit(image, codec, last) == FirstFit(image, codec, InitialQuality)
    && (n > 0 ==> |codec.encodeJpeg(image, InitialQuality)| > MaxBytes)
    && tried == if n == 0 then [InitialQuality] else [InitialQuality] + Ladder(InitialQuality, last)
  }

  /** One pass of the loop keeps `LoopState`. */
  lemma PassKeeps(image: Image, codec: Codec, n: nat, quality: int, imgBytes: seq<byte>, tried: seq<int>)
    requires LoopState(image, codec, n, quality, imgBytes, tried)
    requires |imgBytes| > MaxBytes && quality > QualityFloor
    ensures LoopState(image, codec, n + 1, quality - QualityStep, codec.encodeJpeg(image, quality), tried + [quality])
  {
    if n != 0 {
      FirstFitStep(image, codec, quality + QualityStep);
      LadderExtend(InitialQuality, quality + QualityStep);
    } else {
      LadderStart(InitialQuality);
    }
  }

  /** When the loop stops, the last encoding is the one at the first fit and
      the trace is the whole of `Trace`. */
  lemma LoopExit(image: Image, codec: Codec, n: nat, quality: int, imgBytes: seq<byte>, tried: seq<int>)
    requires LoopState(image, codec, n, quality, imgBytes, tried)
    requires !(|imgBytes| > MaxBytes && quality > QualityFloor)
    ensures imgBytes == codec.encodeJpeg(image, FirstFit(image, codec, InitialQuality))
    ensures tried == Trace(image, codec)
  {
  }

  /** One step down the ladder: an over-budget encoding above the last rung
      defers the choice to the next quality. */
  lemma FirstFitStep(img: Image, codec: Codec, q: int)
    requires q - QualityStep > QualityFloor && q % QualityStep == 0
    requires |codec.encodeJpeg(img, q)| > MaxBytes
    ensures FirstFit(img, codec, q) == FirstFit(img, codec, q - QualityStep)
  {
  }

  /** The normaliser as both handlers run it: the dimension step, then the
      recompression loop on the resized picture. */
  method Normalize(photo: Image, codec: Codec) returns (bytes: seq<byte>, ghost tried: seq<int>)
    ensures bytes == Normalized(photo, codec)
    ensures |bytes| <= MaxBytes || bytes == codec.encodeJpeg(Downscale(photo, codec), LowestQuality)
    ensures tried == Trace(Downscale(photo, codec), codec)
    ensures |tried| > 0 && tried[0] == InitialQuality
    ensures bytes == codec.encodeJpeg(Downscale(photo, codec), tried[|tried| - 1])
    ensures forall k :: 0 <= k < |tried| ==> LowestQuality <= tried[k] <= InitialQuality
  {
    var image := photo;
    var width, height := image.width, image.height;
    if width + height > MaxSum {
      var (newWidth, newHeight) := ScaledSize(width, height);
      image := Image(newWidth, newHeight, codec.resample(image, newWidth, newHeight));
    }
    assert image == Downscale(photo, codec);
    bytes, tried := Recompress(image, codec);
  }

  /** The stored encoding is the last one made, not the smallest: with all
      encodings over budget and the one at 15 the largest, the stored bytes are
      bigger than an encoding the loop made before them (the one at 80). */
  lemma LastEncodingNotSmallest()
    ensures exists img: Image, codec: Codec, k: int ::
      && 0 <= k < |Trace(Downscale(img, codec), codec)|
      && |Normalized(img, codec)| > |codec.encodeJpeg(Downscale(img, codec), Trace(Downscale(img, codec), codec)[k])|
  {
    var img := Image(10, 10, []);
    var codec := Codec((i: Image, w: nat, h: nat) => [],
                       (i: Image, q: int) => seq(if q == LowestQuality then 60000 else 52000, _ => 0 as byte));
    assert Downscale(img, codec) == img;
    var r := FirstFit(img, codec, InitialQuality);
    assert |codec.encodeJpeg(img, r)| > MaxBytes;
    assert |Normalized(img, codec)| == 60000;
    var t := Trace(img, codec);
    assert t == [InitialQuality] + Ladder(InitialQuality, LowestQuality);
    assert t[2] == 80;
    assert |codec.encodeJpeg(img, t[2])| == 52000;
  }
}
