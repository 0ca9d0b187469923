/** The sizes in which a photo may be shared or sold: each 20% smaller than the one before. */
module Ladder {

  const MIN_PHOTO_WIDTH: int := 480

  datatype Size = Size(width: int, height: int)

  /** Where a preview is served from: the temporary upload, or a presigned file. */
  datatype Preview = TemporaryPhoto(photo: nat, width: int) | PresignedFile(key: string, width: int)

  datatype PhotoSize = PhotoSize(size: Size, preview: Preview)

  datatype PhotoFile = PhotoFile(
    id: nat, width: int, height: int, pending: bool, watermark: bool,
    originalPhotoUrl: string, watermarkPhotoUrl: string)

  function Shrink(n: int): int {
    n - n * 20 / 100
  }

  function Rungs(width: int, height: int): seq<Size>
    decreases width
  {
    if width < MIN_PHOTO_WIDTH then []
    else [Size(width, height)] + Rungs(Shrink(width), Shrink(height))
  }

  function Sizes(s: seq<PhotoSize>): seq<Size> {
    seq(|s|, i requires 0 <= i < |s| => s[i].size)
  }

  method GetAvailablePhotoResolution(photo: PhotoFile) returns (available: seq<PhotoSize>)
    ensures Sizes(available) == Rungs(photo.width, photo.height)
    ensures forall p :: p in available ==> p.preview.width == p.size.width
    ensures forall p :: p in available ==> (p.preview.TemporaryPhoto? <==> photo.pending)
    ensures forall p :: p in available && p.preview.TemporaryPhoto? ==> p.preview.photo == photo.id
    ensures forall p :: p in available && p.preview.PresignedFile? ==>
      p.preview.key == if photo.watermark then photo.watermarkPhotoUrl else photo.originalPhotoUrl
  {
    available := [];
    var height := photo.height;
    var i := photo.width;

    if photo.pending {
      while i >= MIN_PHOTO_WIDTH
        invariant Sizes(available) + Rungs(i, height) == Rungs(photo.width, photo.height)
        invariant forall p :: p in available ==> p.preview.width == p.size.width
        invariant forall p :: p in available ==> p.preview.TemporaryPhoto? && p.preview.photo == photo.id
        decreases i
      {
        var next := PhotoSize(Size(i, height), TemporaryPhoto(photo.id, i));
        assert Sizes(available + [next]) == Sizes(available) + [next.size];
        available := available + [next];
        height := height - height * 20 / 100;
        i := i - i * 20 / 100;
      }
      return;
    }

    while i >= MIN_PHOTO_WIDTH
      invariant Sizes(available) + Rungs(i, height) == Rungs(photo.width, photo.height)
      invariant forall p :: p in available ==> p.preview.width == p.size.width
      invariant forall p :: p in available ==>
        p.preview.PresignedFile?
        && p.preview.key == if photo.watermark then photo.watermarkPhotoUrl else photo.originalPhotoUrl
      decreases i
    {
      var key := if photo.watermark then photo.watermarkPhotoUrl else photo.originalPhotoUrl;
      var next := PhotoSize(Size(i, height), PresignedFile(key, i));
      assert Sizes(available + [next]) == Sizes(available) + [next.size];
      available := available + [next];
      height := height - height * 20 / 100;
      i := i - i * 20 / 100;
    }
  }

  function Pow(b: nat, k: nat): nat {
    if k == 0 then 1 else b * Pow(b, k - 1)
  }

  /** Width or height after k reductions. */
  function Iterate(n: int, k: nat): int
    decreases k
  {
    if k == 0 then n else Iterate(Shrink(n), k - 1)
  }

  lemma {:induction false} RungAt(width: int, height: int, k: nat)
    requires k < |Rungs(width, height)|
    ensures Rungs(width, height)[k] == Size(Iterate(width, k), Iterate(height, k))
    decreases k
  {
    if k == 0 {
    } else {
      RungAt(Shrink(width), Shrink(height), k - 1);
    }
  }

  /** The ladder has a rung for every reduction that leaves the width at the minimum or above, and no
      other: it goes down as far as it may. */
  lemma {:induction false} LadderExactly(width: int, height: int, k: nat)
    ensures k < |Rungs(width, height)| <==> MIN_PHOTO_WIDTH <= Iterate(width, k)
    decreases k
  {
    if k == 0 {
    } else {
      LadderExactly(Shrink(width), Shrink(height), k - 1);
    }
  }

  /** It starts at the photo's own size, each rung is the one before less a fifth rounded down, and
      the next after the last would be narrower than 480 pixels. */
  lemma LadderGoesDown(width: int, height: int)
    ensures var r := Rungs(width, height);
      && (r == [] <==> width < 480)
      && (r != [] ==> r[0] == Size(width, height) && r[|r| - 1].width - r[|r| - 1].width * 20 / 100 < 480)
      && forall k: nat | k + 1 < |r| ::
           r[k + 1] == Size(r[k].width - r[k].width * 20 / 100, r[k].height - r[k].height * 20 / 100)
  {
    var r := Rungs(width, height);
    if r != [] {
      RungAt(width, height, |r| - 1);
      IterateLast(width, |r| - 1);
      LadderExactly(width, height, |r|);
    }
    forall k: nat | k + 1 < |r|
      ensures r[k + 1] == Size(r[k].width - r[k].width * 20 / 100, r[k].height - r[k].height * 20 / 100)
    {
      RungAt(width, height, k);
      RungAt(width, height, k + 1);
      IterateLast(width, k);
      IterateLast(height, k);
    }
  }

  /** Widths fall strictly from the photo's own width and never below the minimum. */
  lemma {:induction false} WidthsFall(width: int, height: int, i: nat, j: nat)
    requires i < j < |Rungs(width, height)|
    ensures MIN_PHOTO_WIDTH <= Rungs(width, height)[j].width < Rungs(width, height)[i].width <= width
    decreases j
  {
    var rest := Rungs(Shrink(width), Shrink(height));
    if i > 0 {
      WidthsFall(Shrink(width), Shrink(height), i - 1, j - 1);
    } else if j > 1 {
      WidthsFall(Shrink(width), Shrink(height), 0, j - 1);
    }
  }

  /** A photo at least one pixel high has rungs at least one pixel high and no higher than it. */
  lemma {:induction false} RungBounds(width: int, height: int, k: nat)
    requires k < |Rungs(width, height)|
    ensures MIN_PHOTO_WIDTH <= Rungs(width, height)[k].width <= width
    ensures height >= 1 ==> 1 <= Rungs(width, height)[k].height <= height
    decreases k
  {
    if k == 0 {
    } else {
      RungBounds(Shrink(width), Shrink(height), k - 1);
    }
  }

  function Max(a: int, b: int): int { if a >= b then a else b }

  function Abs(a: int): int { if a >= 0 then a else -a }

  lemma ShrinkByFifth(n: int)
    ensures 0 <= 5 * Shrink(n) - 4 * n <= 4
  {
    assert n * 20 / 100 == n / 5;
  }

  lemma Scaled(r: int, a: int, m: int)
    requires 0 <= r <= 4 && 1 <= a <= m
    ensures 0 <= r * a <= 4 * m
  {
  }

  lemma CrossProduct(v: int, w: int, r: int, a: int)
    requires 5 * v == 4 * w + r
    ensures 5 * (v * a) == 4 * (w * a) + r * a
  {
    assert 5 * (v * a) == (5 * v) * a;
    assert (4 * w + r) * a == 4 * (w * a) + r * a;
  }

  /** One reduction keeps the cross product of a rung with the photo within four times the
      photo's longer side. */
  lemma DriftStep(w: int, h: int, width: int, height: int)
    requires width >= 1 && height >= 1
    requires Abs(h * width - w * height) < 4 * Max(width, height)
    ensures Abs(Shrink(h) * width - Shrink(w) * height) < 4 * Max(width, height)
  {
    ShrinkByFifth(w);
    ShrinkByFifth(h);
    DriftBound(w, h, Shrink(w), Shrink(h), width, height);
  }

  lemma DriftBound(w: int, h: int, w': int, h': int, width: int, height: int)
    requires width >= 1 && height >= 1
    requires 0 <= 5 * w' - 4 * w <= 4 && 0 <= 5 * h' - 4 * h <= 4
    requires Abs(h * width - w * height) < 4 * Max(width, height)
    ensures Abs(h' * width - w' * height) < 4 * Max(width, height)
  {
    var rw, rh, m := 5 * w' - 4 * w, 5 * h' - 4 * h, Max(width, height);
    CrossProduct(h', h, rh, width);
    CrossProduct(w', w, rw, height);
    Scaled(rh, width, m);
    Scaled(rw, height, m);
    LinearDrift(h' * width, h * width, rh * width, w' * height, w * height, rw * height, m);
  }

  lemma LinearDrift(p': int, p: int, e: int, q': int, q: int, f: int, m: int)
    requires 5 * p' == 4 * p + e && 5 * q' == 4 * q + f
    requires 0 <= e <= 4 * m && 0 <= f <= 4 * m && Abs(p - q) < 4 * m
    ensures Abs(p' - q') < 4 * m
  {
  }

  lemma {:induction false} IterateLast(n: int, k: nat)
    ensures Iterate(n, k + 1) == Shrink(Iterate(n, k))
    decreases k
  {
    if k == 0 {
    } else {
      IterateLast(Shrink(n), k - 1);
    }
  }

  lemma {:induction false} DriftOfIterates(width: int, height: int, k: nat)
    requires width >= 1 && height >= 1
    ensures Abs(Iterate(height, k) * width - Iterate(width, k) * height) < 4 * Max(width, height)
  {
    if k == 0 {
      assert height * width == width * height;
    } else {
      DriftOfIterates(width, height, k - 1);
      IterateLast(width, k - 1);
      IterateLast(height, k - 1);
      DriftStep(Iterate(width, k - 1), Iterate(height, k - 1), width, height);
    }
  }

  /** However many rungs, rounding never lets the aspect ratio drift further. */
  lemma AspectDrift(width: int, height: int, k: nat)
    requires width >= 1 && height >= 1 && k < |Rungs(width, height)|
    ensures var r := Rungs(width, height)[k];
      Abs(r.height * width - r.width * height) < 4 * Max(width, height)
  {
    RungAt(width, height, k);
    DriftOfIterates(width, height, k);
  }

  lemma {:induction false} IterateUpper(n: int, k: nat)
    ensures (Iterate(n, k) - 4) * Pow(5, k) <= (n - 4) * Pow(4, k)
  {
    if k == 0 {
    } else {
      IterateUpper(n, k - 1);
      IterateLast(n, k - 1);
      var w, p, q := Iterate(n, k - 1), Pow(5, k - 1), Pow(4, k - 1);
      ShrinkByFifth(w);
      PowPositive(5, k - 1);
      UpperStep(Shrink(w), w, n, p, q);
    }
  }

  lemma UpperStep(v: int, w: int, n: int, p: int, q: int)
    requires p > 0 && 5 * v - 4 * w <= 4 && (w - 4) * p <= (n - 4) * q
    ensures (v - 4) * (5 * p) <= (n - 4) * (4 * q)
  {
    assert (v - 4) * (5 * p) == (5 * (v - 4)) * p;
    assert (5 * (v - 4)) * p <= (4 * (w - 4)) * p;
    assert (4 * (w - 4)) * p == 4 * ((w - 4) * p);
  }

  lemma {:induction false} PowPositive(b: nat, k: nat)
    requires b > 0
    ensures Pow(b, k) > 0
  {
    if k == 0 {
    } else {
      PowPositive(b, k - 1);
    }
  }

  lemma RungsReach(width: int, height: int, k: nat)
    requires k < |Rungs(width, height)|
    ensures Iterate(width, k) >= MIN_PHOTO_WIDTH
  {
    RungAt(width, height, k);
    RungBounds(width, height, k);
  }

  lemma TooManyRungs(width: int, w: int, p: nat, q: nat)
    requires p > 0 && q > 0 && w >= MIN_PHOTO_WIDTH
    requires (w - 4) * p <= (width - 4) * q
    ensures width * q > 476 * p
  {
    assert (w - 480) * p >= 0;
    assert (w - 4) * p == (w - 480) * p + 476 * p;
    assert (width - 4) * q == width * q - 4 * q;
  }

  /** The number of rungs grows only logarithmically with the width. */
  lemma RungCount(width: int, height: int, k: nat)
    requires width * Pow(4, k) <= 476 * Pow(5, k)
    ensures |Rungs(width, height)| <= k
  {
    if k < |Rungs(width, height)| {
      RungsReach(width, height, k);
      IterateUpper(width, k);
      PowPositive(4, k);
      PowPositive(5, k);
      TooManyRungs(width, Iterate(width, k), Pow(5, k), Pow(4, k));
    }
  }
}
