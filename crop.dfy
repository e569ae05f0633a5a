/** The crop boxes of the thumbnail helpers `crop_center` and
    `crop_max_square` (mastoinky.py:113-127). Only the box handed to Pillow's
    `crop` is modelled; Pillow's own cropping is not part of this model.
    Python's `//` floors; Dafny's `/` on `int` is Euclidean, which is the same
    thing for the positive divisor 2. */
module Crop {

  /** A Pillow crop box: (left, upper, right, lower), right and lower exclusive. */
  datatype Box = Box(left: int, upper: int, right: int, lower: int)

  function Min(a: int, b: int): int {
    if a <= b then a else b
  }

  /** `crop_center(img, cropWidth, cropHeight)` for an image of size
      `imgWidth` by `imgHeight`: the box is exactly as large as asked, it is
      centred (the right margin equals the left one or is one pixel more, and
      likewise below), and it lies inside the image when the crop fits. */
  function CropCenter(imgWidth: nat, imgHeight: nat, cropWidth: int, cropHeight: int): (box: Box)
    ensures box.right - box.left == cropWidth && box.lower - box.upper == cropHeight
    ensures box.left <= imgWidth - box.right <= box.left + 1
    ensures box.upper <= imgHeight - box.lower <= box.upper + 1
    ensures 0 <= cropWidth <= imgWidth ==> 0 <= box.left && box.right <= imgWidth
    ensures 0 <= cropHeight <= imgHeight ==> 0 <= box.upper && box.lower <= imgHeight
  {
    Box((imgWidth - cropWidth) / 2, (imgHeight - cropHeight) / 2,
        (imgWidth + cropWidth) / 2, (imgHeight + cropHeight) / 2)
  }

  /** `crop_max_square(img)`: a square whose side is the shorter image side,
      inside the image, spanning the image fully along its shorter side. */
  function CropMaxSquare(imgWidth: nat, imgHeight: nat): (box: Box)
    ensures box.right - box.left == box.lower - box.upper == Min(imgWidth, imgHeight)
    ensures 0 <= box.left && box.right <= imgWidth && 0 <= box.upper && box.lower <= imgHeight
    ensures imgWidth <= imgHeight ==> box.left == 0 && box.right == imgWidth
    ensures imgHeight <= imgWidth ==> box.upper == 0 && box.lower == imgHeight
  {
    var side := Min(imgWidth, imgHeight);
    CropCenter(imgWidth, imgHeight, side, side)
  }
}
