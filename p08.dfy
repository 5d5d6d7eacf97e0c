/**
 * Day 8 (src/p08.rs): an image sent as a stream of digits, cut into layers
 * of `width * height` cells and each layer into rows of `width`, and the
 * check that multiplies the 1s and 2s of the layer with the fewest 0s.
 *
 * Where the code panics (a zero-sized layer, a character that is not a
 * digit, a layer index past the end, `unwrap` on nothing) the model answers
 * `None`.
 */
module P08 {
  import opened Wrappers
  import opened Text
  import opened Arith

  // ---------------------------------------------------------------------------
  // Chunks
  // ---------------------------------------------------------------------------

  /** The pieces of `xss` laid end to end. */
  function Flatten<T>(xss: seq<seq<T>>): seq<T>
    decreases |xss|
  {
    if |xss| == 0 then [] else xss[0] + Flatten(xss[1..])
  }

  /** Flattening distributes over concatenation. */
  lemma {:induction false} FlattenAppend<T>(a: seq<seq<T>>, b: seq<seq<T>>)
    ensures Flatten(a + b) == Flatten(a) + Flatten(b)
    decreases |a|
  {
    if |a| > 0 {
      assert (a + b)[0] == a[0];
      assert (a + b)[1..] == a[1..] + b;
      FlattenAppend(a[1..], b);
    } else {
      assert a + b == b;
    }
  }

  /** The lengths of the pieces add up to the length of the whole. */
  lemma {:induction false} FlattenLength<T>(xss: seq<seq<T>>, n: nat)
    requires forall i :: 0 <= i < |xss| ==> |xss[i]| == n
    ensures |Flatten(xss)| == n * |xss|
    decreases |xss|
  {
    if |xss| > 0 {
      FlattenLength(xss[1..], n);
      assert n * |xss| == n * |xss[1..]| + n;
    }
  }

  /**
   * `slice::chunks(n)`: consecutive pieces of `n` elements, the last one
   * shorter when `n` does not divide the length; nothing for an empty slice.
   */
  function Chunks<T>(xs: seq<T>, n: nat): (cs: seq<seq<T>>)
    requires n > 0
    ensures Flatten(cs) == xs
    ensures forall i :: 0 <= i < |cs| ==> 0 < |cs[i]| <= n
    ensures forall i :: 0 <= i < |cs| - 1 ==> |cs[i]| == n
    ensures |cs| == 0 <==> |xs| == 0
    decreases |xs|
  {
    if |xs| == 0 then []
    else if |xs| <= n then [xs]
    else [xs[..n]] + Chunks(xs[n..], n)
  }

  /** `k` whole pieces of `n` are cut into exactly `k` chunks, all full. */
  lemma {:induction false} ChunksWhole<T>(xs: seq<T>, n: nat, k: nat)
    requires n > 0 && |xs| == n * k
    ensures |Chunks(xs, n)| == k
    ensures forall i :: 0 <= i < k ==> |Chunks(xs, n)[i]| == n
    decreases k
  {
    if k > 0 {
      assert n * k == n * (k - 1) + n;
      if k == 1 {
        assert |xs| == n;
      } else {
        MulAtLeast(n, k - 1);
        ChunksWhole(xs[n..], n, k - 1);
      }
    }
  }

  // ---------------------------------------------------------------------------
  // Arithmetic on `usize`
  // ---------------------------------------------------------------------------

  /** The number of cells in a layer, which is positive for a positive width and height. */
  function Area(width: nat, height: nat): (n: nat)
    requires width > 0 && height > 0
    ensures n >= width && n >= height
    decreases width
  {
    if width == 1 then height else height + Area(width - 1, height)
  }

  /** The area is the product of the sides. */
  lemma {:induction false} AreaIsProduct(width: nat, height: nat)
    requires width > 0 && height > 0
    ensures Area(width, height) == width * height
    decreases width
  {
    if width > 1 {
      AreaIsProduct(width - 1, height);
      assert width * height == (width - 1) * height + height;
    }
  }

  // ---------------------------------------------------------------------------
  // The image
  // ---------------------------------------------------------------------------

  type Layer = seq<seq<nat>>

  /** `Image`: its width, its height, its depth (the number of layers it claims), and the layers. */
  datatype Image = Image(width: nat, height: nat, depth: nat, layers: seq<Layer>)

  /** `to_digit(10)` of every character. */
  function PixelDigits(s: string): (ds: seq<nat>)
    requires AllDigits(s)
    ensures |ds| == |s| && forall i :: 0 <= i < |s| ==> ds[i] == CharValue(s[i]) < 10
  {
    seq(|s|, i requires 0 <= i < |s| => CharValue(s[i]))
  }

  /** The cells cut into layers of `width * height`, and each layer into rows of `width`. */
  function LayersOf(cells: seq<nat>, width: nat, height: nat): (ls: seq<Layer>)
    requires width > 0 && height > 0
  {
    var cs := Chunks(cells, Area(width, height));
    seq(|cs|, i requires 0 <= i < |cs| => Chunks(cs[i], width))
  }

  /**
   * `Image::new` as written: the depth is the length in UTF-8 bytes of the
   * input before trimming divided by the size of a layer, while the layers
   * are cut from the trimmed input.
   */
  function New(width: nat, height: nat, pixels: string): (r: Option<Image>)
    ensures r.Some? <==> width > 0 && height > 0 && AllDigits(Trim(pixels))
    ensures r.Some? ==> r.value.width == width && r.value.height == height
    ensures r.Some? ==> r.value.depth * (width * height) <= Utf8Len(pixels) < (r.value.depth + 1) * (width * height)
  {
    if width == 0 || height == 0 then None
    else
      var t := Trim(pixels);
      if !AllDigits(t) then None
      else
        DivNat(Utf8Len(pixels), Area(width, height));
        AreaIsProduct(width, height);
        DepthBounds(Utf8Len(pixels), Area(width, height));
        Some(Image(width, height, Utf8Len(pixels) / Area(width, height), LayersOf(PixelDigits(t), width, height)))
  }

  /** A quotient of naturals takes the largest multiple of the divisor that fits. */
  lemma DepthBounds(x: nat, n: nat)
    requires n > 0
    ensures (x / n) * n <= x < (x / n + 1) * n
  {
  }

  /** `Image::new` with the depth taken as the number of layers cut. */
  function NewCorrected(width: nat, height: nat, pixels: string): (r: Option<Image>)
    ensures r.Some? <==> width > 0 && height > 0 && AllDigits(Trim(pixels))
    ensures r.Some? ==> r.value.depth == |r.value.layers|
  {
    match New(width, height, pixels)
    case None => None
    case Some(img) => Some(img.(depth := |img.layers|))
  }

  /** Flattening twice is flattening each piece and then the results. */
  lemma {:induction false} FlattenTwice<T>(xsss: seq<seq<seq<T>>>, ys: seq<seq<T>>)
    requires |ys| == |xsss| && forall i :: 0 <= i < |xsss| ==> Flatten(xsss[i]) == ys[i]
    ensures Flatten(Flatten(xsss)) == Flatten(ys)
    decreases |xsss|
  {
    if |xsss| > 0 {
      FlattenTwice(xsss[1..], ys[1..]);
      FlattenAppend(xsss[0], Flatten(xsss[1..]));
    }
  }

  /** The rows of all the layers laid end to end give back the digits they were cut from. */
  lemma LayersFlatten(cells: seq<nat>, width: nat, height: nat)
    requires width > 0 && height > 0
    ensures Flatten(Flatten(LayersOf(cells, width, height))) == cells
  {
    FlattenTwice(LayersOf(cells, width, height), Chunks(cells, Area(width, height)));
  }

  /**
   * Every row holds between one and `width` cells, and every layer at least
   * one row; when the digits fill `k` whole layers there are `k` layers, each
   * of `height` rows of `width` cells.
   */
  lemma LayersShape(cells: seq<nat>, width: nat, height: nat, k: nat)
    requires width > 0 && height > 0
    ensures forall l, r :: 0 <= l < |LayersOf(cells, width, height)| && 0 <= r < |LayersOf(cells, width, height)[l]| ==>
      0 < |LayersOf(cells, width, height)[l][r]| <= width
    ensures forall l :: 0 <= l < |LayersOf(cells, width, height)| ==> |LayersOf(cells, width, height)[l]| > 0
    ensures |cells| == width * height * k ==>
      |LayersOf(cells, width, height)| == k &&
      forall l :: 0 <= l < k ==>
        |LayersOf(cells, width, height)[l]| == height &&
        forall r :: 0 <= r < height ==> |LayersOf(cells, width, height)[l][r]| == width
  {
    var n := Area(width, height);
    var cs := Chunks(cells, n);
    AreaIsProduct(width, height);
    if |cells| == n * k {
      ChunksWhole(cells, n, k);
      forall l | 0 <= l < k
        ensures |Chunks(cs[l], width)| == height
        ensures forall r :: 0 <= r < height ==> |Chunks(cs[l], width)[r]| == width
      {
        assert |cs[l]| == width * height;
        ChunksWhole(cs[l], width, height);
      }
    }
  }

  /**
   * When the text's surrounding whitespace takes fewer UTF-8 bytes than a
   * layer has cells and its digits fill `k` whole layers, the depth as
   * written is the number of layers.
   */
  lemma DepthWhenWhole(width: nat, height: nat, pixels: string, k: nat)
    requires New(width, height, pixels).Some?
    requires |Trim(pixels)| == width * height * k
    requires Utf8Len(pixels) - |Trim(pixels)| < width * height
    ensures New(width, height, pixels).value.depth == |New(width, height, pixels).value.layers| == k
  {
    var n := Area(width, height);
    var t := Trim(pixels);
    AreaIsProduct(width, height);
    ChunksWhole(PixelDigits(t), n, k);
    TrimSlice(pixels);
    DivUnique(Utf8Len(pixels), n, k, Utf8Len(pixels) - |t|);
  }

  // ---------------------------------------------------------------------------
  // Counting digits
  // ---------------------------------------------------------------------------

  /** `row.iter().filter(|v| **v == digit).count()`. */
  function Occurrences(row: seq<nat>, digit: nat): nat
    decreases |row|
  {
    if |row| == 0 then 0 else (if row[0] == digit then 1 else 0) + Occurrences(row[1..], digit)
  }

  /** The count of `digit` in a row is its multiplicity there. */
  lemma {:induction false} OccurrencesMeans(row: seq<nat>, digit: nat)
    ensures Occurrences(row, digit) == multiset(row)[digit] <= |row|
    decreases |row|
  {
    if |row| > 0 {
      assert row == [row[0]] + row[1..];
      OccurrencesMeans(row[1..], digit);
    }
  }

  /** The per-row counts summed over the rows. */
  function SumRows(rows: Layer, digit: nat): nat
    decreases |rows|
  {
    if |rows| == 0 then 0 else Occurrences(rows[0], digit) + SumRows(rows[1..], digit)
  }

  /** The summed counts of `digit` are its multiplicity in the rows laid end to end. */
  lemma {:induction false} SumRowsMeans(rows: Layer, digit: nat)
    ensures SumRows(rows, digit) == multiset(Flatten(rows))[digit] <= |Flatten(rows)|
    decreases |rows|
  {
    if |rows| > 0 {
      OccurrencesMeans(rows[0], digit);
      SumRowsMeans(rows[1..], digit);
      assert multiset(Flatten(rows)) == multiset(rows[0]) + multiset(Flatten(rows[1..]));
    }
  }

  /** `Image::count_digit`: the number of cells of layer `layer` that hold `digit`; indexing panics past the last layer. */
  function CountDigit(img: Image, layer: nat, digit: nat): nat
    requires layer < |img.layers|
  {
    SumRows(img.layers[layer], digit)
  }

  /** `count_digit` counts the cells of the layer that hold the digit, whatever row they are in. */
  lemma CountDigitMeans(img: Image, layer: nat, digit: nat)
    requires layer < |img.layers|
    ensures CountDigit(img, layer, digit) == multiset(Flatten(img.layers[layer]))[digit]
    ensures CountDigit(img, layer, digit) <= |Flatten(img.layers[layer])|
  {
    SumRowsMeans(img.layers[layer], digit);
  }

  // ---------------------------------------------------------------------------
  // Part 1
  // ---------------------------------------------------------------------------

  /** `(0..n).min_by_key(|layer| count_digit(layer, 0))`: the first layer below `n` with the fewest 0s. */
  function FewestZeros(img: Image, n: nat): (l: nat)
    requires 0 < n <= |img.layers|
    ensures l < n
    ensures forall k :: 0 <= k < n ==> CountDigit(img, l, 0) <= CountDigit(img, k, 0)
    ensures forall k :: 0 <= k < l ==> CountDigit(img, l, 0) < CountDigit(img, k, 0)
    decreases n
  {
    if n == 1 then 0
    else
      var best := FewestZeros(img, n - 1);
      if CountDigit(img, n - 1, 0) < CountDigit(img, best, 0) then n - 1 else best
  }

  /**
   * `part1`: for the layer with the fewest 0s among the first `depth`, the
   * number of 1s times the number of 2s.  It panics when `depth` is 0 (the
   * `unwrap`) and when `depth` exceeds the layers (the index).
   */
  function Part1(img: Image): (r: Option<nat>)
    ensures r.Some? <==> 0 < img.depth <= |img.layers|
  {
    if img.depth == 0 || img.depth > |img.layers| then None
    else
      var l := FewestZeros(img, img.depth);
      Some(CountDigit(img, l, 1) * CountDigit(img, l, 2))
  }

  /**
   * What `part1` answers: the 1s times the 2s of a layer `l` with no fewer 0s
   * than any layer before `depth`, and strictly fewer than every earlier one.
   */
  lemma Part1Means(img: Image) returns (l: nat)
    requires Part1(img).Some?
    ensures l < img.depth <= |img.layers|
    ensures Part1(img).value == CountDigit(img, l, 1) * CountDigit(img, l, 2)
    ensures forall k :: 0 <= k < img.depth ==> CountDigit(img, l, 0) <= CountDigit(img, k, 0)
    ensures forall k :: 0 <= k < l ==> CountDigit(img, l, 0) < CountDigit(img, k, 0)
  {
    l := FewestZeros(img, img.depth);
  }

  /** With the corrected depth, `part1` answers for every non-empty image. */
  lemma Part1Corrected(width: nat, height: nat, pixels: string)
    requires NewCorrected(width, height, pixels).Some?
    requires |Trim(pixels)| > 0
    ensures Part1(NewCorrected(width, height, pixels).value).Some?
  {
    var t := Trim(pixels);
    var cells := PixelDigits(t);
    assert |Chunks(cells, Area(width, height))| > 0;
  }

  // ---------------------------------------------------------------------------
  // The untrimmed depth
  // ---------------------------------------------------------------------------

  /** Trimming drops the trailing line feed. */
  lemma TrimLineFeed()
    ensures Trim("1\n") == "1"
  {
    assert TrimStart("1\n") == "1\n";
    assert TrimEnd("1") == "1";
  }

  /** One digit is one layer of one row of one cell. */
  lemma LayersOfOne()
    ensures LayersOf([1], 1, 1) == [[[1]]]
  {
    assert Area(1, 1) == 1;
    assert Chunks([1], 1) == [[1]];
  }

  /** The image `Image::new` builds from a digit and a line feed. */
  lemma NewOfLineFeed()
    ensures New(1, 1, "1\n") == Some(Image(1, 1, 2, [[[1]]]))
  {
    TrimLineFeed();
    OneDigit();
    LayersOfOne();
    DepthOfLineFeed();
  }

  /** The trimmed text is one pixel, the digit 1. */
  lemma OneDigit()
    ensures AllDigits("1") && PixelDigits("1") == [1]
  {
  }

  /** Two bytes over one-cell layers make a depth of two. */
  lemma DepthOfLineFeed()
    ensures Utf8Len("1\n") / Area(1, 1) == 2
  {
    assert Utf8Len("1\n") == 2;
    assert Area(1, 1) == 1;
    DivUnique(2, 1, 2, 0);
  }

  /**
   * With one-cell layers and a trailing line feed, the depth as written
   * counts the line feed as a second layer and `part1` indexes past the
   * only one; with the depth taken from the layers it answers 0.
   */
  lemma DepthCountsNewline()
    ensures New(1, 1, "1\n").Some?
    ensures New(1, 1, "1\n").value.depth == 2 && |New(1, 1, "1\n").value.layers| == 1
    ensures Part1(New(1, 1, "1\n").value).None?
    ensures Part1(NewCorrected(1, 1, "1\n").value) == Some(0)
  {
    NewOfLineFeed();
    var img := Image(1, 1, 1, [[[1]]]);
    assert NewCorrected(1, 1, "1\n").value == img;
    assert FewestZeros(img, 1) == 0;
    assert CountDigit(img, 0, 2) == 0;
  }

  /**
   * The depth counts bytes, not characters: a trailing no-break space takes
   * two bytes, so two digits over two-cell layers claim a second layer that
   * `part1` indexes past.
   */
  lemma DepthCountsBytes()
    ensures New(2, 1, "12\U{00A0}").Some?
    ensures New(2, 1, "12\U{00A0}").value.depth == 2 && |New(2, 1, "12\U{00A0}").value.layers| == 1
    ensures Part1(New(2, 1, "12\U{00A0}").value).None?
  {
    assert TrimStart("12\U{00A0}") == "12\U{00A0}";
    assert TrimEnd("12\U{00A0}") == "12" by {
      assert TrimEnd("12") == "12";
    }
    assert Utf8Len("12\U{00A0}") == 4;
    assert Area(2, 1) == 2;
    DivUnique(4, 2, 2, 0);
    assert |Chunks(PixelDigits("12"), 2)| == 1;
  }
}
