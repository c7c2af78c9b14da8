/**
  The decisions `compress_image` takes before handing the pixels to the imaging
  library: the bounded size (width first, then height) and the JPEG quality.
*/
module Imaging {
  import opened Wrappers
  import opened Strings
  import opened Paths

  datatype Size = Size(width: nat, height: nat)

  /** Scaling `a` by `b / c` with `b < c` never makes it larger. */
  lemma ScaleDown(a: nat, b: nat, c: nat)
    requires 0 < b < c
    ensures a * b / c <= a
  {
    var q := a * b / c;
    assert q * c + (a * b) % c == a * b;
    assert a * b <= a * c;
    assert (a - q) * c >= 0;
    NonNegativeFactor(a - q, c);
  }

  lemma NonNegativeFactor(x: int, c: int)
    requires c > 0 && x * c >= 0
    ensures x >= 0
  {
  }

  /** The width-bounding step: a too-wide image is scaled to the maximum width. */
  function BoundWidth(size: Size, maxWidth: int): (r: Size)
    ensures r.width <= size.width && r.height <= size.height
    ensures maxWidth > 0 ==> r.width <= maxWidth
    ensures r == size <==> maxWidth <= 0 || size.width <= maxWidth
  {
    if maxWidth > 0 && size.width > maxWidth then
      ScaleDown(size.height, maxWidth, size.width);
      Size(maxWidth, size.height * maxWidth / size.width)
    else size
  }

  /** The height-bounding step, applied to the result of the width step. */
  function BoundHeight(size: Size, maxHeight: int): (r: Size)
    ensures r.width <= size.width && r.height <= size.height
    ensures maxHeight > 0 ==> r.height <= maxHeight
    ensures r == size <==> maxHeight <= 0 || size.height <= maxHeight
  {
    if maxHeight > 0 && size.height > maxHeight then
      ScaleDown(size.width, maxHeight, size.height);
      Size(size.width * maxHeight / size.height, maxHeight)
    else size
  }

  /** The new size `compress_image` resizes to (integer arithmetic). */
  function FitWithin(size: Size, maxWidth: int, maxHeight: int): (r: Size)
    ensures maxWidth > 0 ==> r.width <= maxWidth
    ensures maxHeight > 0 ==> r.height <= maxHeight
    ensures r.width <= size.width && r.height <= size.height
    ensures r == size <==> (maxWidth <= 0 || size.width <= maxWidth) && (maxHeight <= 0 || size.height <= maxHeight)
  {
    BoundHeight(BoundWidth(size, maxWidth), maxHeight)
  }

  /** Bounding an already bounded size changes nothing. */
  lemma FitWithinIdempotent(size: Size, maxWidth: int, maxHeight: int)
    ensures FitWithin(FitWithin(size, maxWidth, maxHeight), maxWidth, maxHeight) == FitWithin(size, maxWidth, maxHeight)
  {
  }

  /** The width step keeps the aspect ratio up to rounding the new height down. */
  lemma BoundWidthKeepsRatio(size: Size, maxWidth: int)
    requires maxWidth > 0 && size.width > maxWidth
    ensures var r := BoundWidth(size, maxWidth);
      r.width == maxWidth &&
      r.height * size.width <= size.height * maxWidth < (r.height + 1) * size.width
  {
    var n := size.height * maxWidth;
    var q := n / size.width;
    assert n == q * size.width + n % size.width;
  }

  /** 4000 x 1000 bounded by 2000 x 800 becomes 2000 x 500: only the width bound acts. */
  lemma FitWithinExample()
    ensures FitWithin(Size(4000, 1000), 2000, 800) == Size(2000, 500)
  {
  }

  /** The JPEG quality: clamped into 1..100 when positive, else 85. */
  function JpegQuality(quality: int): (r: int)
    ensures 1 <= r <= 100
    ensures 1 <= quality <= 100 ==> r == quality
    ensures quality > 100 ==> r == 100
    ensures quality <= 0 ==> r == 85
  {
    if quality > 0 then (if quality < 100 then quality else 100) else 85
  }

  predicate IsJpegName(name: string) { Lower(PathSuffix(name)) in {".jpg", ".jpeg"} }

  /** What `compress_image` does to a readable image. */
  datatype Plan = Untouched | Rewrite(size: Size, resized: bool, quality: Option<int>)

  function CompressPlan(name: string, size: Size, quality: int, maxWidth: int, maxHeight: int): (r: Plan)
    ensures r.Untouched? <==> quality <= 0 && maxWidth <= 0 && maxHeight <= 0
    ensures r.Rewrite? ==> r.size == FitWithin(size, maxWidth, maxHeight) && (r.resized <==> r.size != size)
    ensures r.Rewrite? ==> (r.quality.Some? <==> IsJpegName(name))
    ensures r.Rewrite? && r.quality.Some? ==> r.quality.value == JpegQuality(quality)
  {
    if quality <= 0 && maxWidth <= 0 && maxHeight <= 0 then Untouched
    else
      var newSize := FitWithin(size, maxWidth, maxHeight);
      Rewrite(newSize, newSize != size, if IsJpegName(name) then Some(JpegQuality(quality)) else None)
  }

  /** An image already within both bounds is re-saved at its own size. */
  lemma InBoundsNotResized(name: string, size: Size, quality: int, maxWidth: int, maxHeight: int)
    requires quality > 0 || maxWidth > 0 || maxHeight > 0
    requires size.width <= maxWidth || maxWidth <= 0
    requires size.height <= maxHeight || maxHeight <= 0
    ensures CompressPlan(name, size, quality, maxWidth, maxHeight) == Rewrite(size, false,
              if IsJpegName(name) then Some(JpegQuality(quality)) else None)
  {
  }
}
