/** The two helpers of backend/components/video_editing.py: the file-existence
    check and the height-driven rescale. The file system is a parameter: a set
    of existing paths, and a map from image paths to the images stored there.
    Only an image's dimensions and mode are modelled, never its pixels. */
module VideoEditing {
  import opened Wrappers

  /** A Pillow image as far as the model needs it. */
  datatype Image = Image(width: nat, height: nat, mode: string)

  /** The exceptions these helpers raise. `InvalidSize` is Pillow's refusal to
      resize to a width or height below 1. */
  datatype MediaError =
    | FileNotFound(message: string)
    | ZeroDivision
    | InvalidSize

  /** `check_file_exists`: true when the path exists, otherwise a
      `FileNotFoundError` naming the path. */
  function CheckFileExists(existing: set<string>, filePath: string): (r: Result<bool, MediaError>)
    ensures r.Success? <==> filePath in existing
    ensures r.Success? ==> r.value
    ensures r.Failure? ==> r.error == FileNotFound("Video file not found: " + filePath)
  {
    if filePath !in existing then Failure(FileNotFound("Video file not found: " + filePath)) else Success(true)
  }

  /** Python's `int()` on a quotient: division truncated toward zero. */
  function TruncDiv(a: int, b: int): (q: int)
    requires b > 0
    ensures a >= 0 ==> q * b <= a < (q + 1) * b
    ensures a < 0 ==> (q - 1) * b < a <= q * b
  {
    if a >= 0 then a / b else -((-a) / b)
  }

  /** `int(width * (desired_height / height))`, computed exactly. */
  function ScaledWidth(width: nat, height: nat, desiredHeight: int): int
    requires height > 0
  {
    TruncDiv(width * desiredHeight, height)
  }

  /** `rescale_image`: `Image.open`, then `resize` to the scaled width and the
      requested height. A missing file, a zero height (the divisor of the scale
      factor) and a target size below 1 are errors, in that order. On success
      the new height is the requested height, the width is the proportional
      width truncated (never rounded up), and the mode is unchanged. */
  function RescaleImage(images: map<string, Image>, imagePath: string, desiredHeight: int): (r: Result<Image, MediaError>)
    ensures imagePath !in images ==> r == Failure(FileNotFound("[Errno 2] No such file or directory: '" + imagePath + "'"))
    ensures imagePath in images && images[imagePath].height == 0 ==> r == Failure(ZeroDivision)
    ensures r.Success? ==> desiredHeight >= 1 && r.value.width >= 1
    ensures r.Failure? && imagePath in images && images[imagePath].height > 0 ==> r.error == InvalidSize
    ensures r.Success? ==>
      var old_ := images[imagePath];
      && r.value.height == desiredHeight
      && r.value.mode == old_.mode
      && r.value.width * old_.height <= old_.width * desiredHeight < (r.value.width + 1) * old_.height
  {
    if imagePath !in images then Failure(FileNotFound("[Errno 2] No such file or directory: '" + imagePath + "'"))
    else
      var image := images[imagePath];
      if image.height == 0 then Failure(ZeroDivision)
      else
        var desiredWidth := ScaledWidth(image.width, image.height, desiredHeight);
        if desiredWidth < 1 || desiredHeight < 1 then Failure(InvalidSize)
        else Success(Image(desiredWidth, desiredHeight, image.mode))
  }

  /** When the height divides `width * desired_height` the width is exact, so
      the aspect ratio is kept exactly. */
  lemma RescaleExactWhenDivisible(images: map<string, Image>, imagePath: string, desiredHeight: int)
    requires imagePath in images && images[imagePath].height > 0
    requires RescaleImage(images, imagePath, desiredHeight).Success?
    requires (images[imagePath].width * desiredHeight) % images[imagePath].height == 0
    ensures RescaleImage(images, imagePath, desiredHeight).value.width * images[imagePath].height
      == images[imagePath].width * desiredHeight
  {
  }

  /** An existing image with a height is rescaled exactly when the request
      leaves at least one pixel in each direction; otherwise Pillow refuses the size. */
  lemma RescaleSucceeds(images: map<string, Image>, imagePath: string, desiredHeight: int)
    requires imagePath in images && images[imagePath].height > 0
    ensures RescaleImage(images, imagePath, desiredHeight).Success? <==>
      desiredHeight >= 1 && images[imagePath].width * desiredHeight >= images[imagePath].height
    ensures RescaleImage(images, imagePath, desiredHeight).Failure? ==>
      RescaleImage(images, imagePath, desiredHeight).error == InvalidSize
  {
    var image := images[imagePath];
    if desiredHeight >= 1 {
      var w := ScaledWidth(image.width, image.height, desiredHeight);
      assert w * image.height <= image.width * desiredHeight < (w + 1) * image.height;
      if image.width * desiredHeight >= image.height {
        assert (w + 1) * image.height > image.height;
      }
    }
  }

  /** The repository's test: a 200x100 image rescaled to height 200 is 400 wide. */
  lemma RescaleExample()
    ensures RescaleImage(map["test_image.png" := Image(200, 100, "RGB")], "test_image.png", 200)
      == Success(Image(400, 200, "RGB"))
  {
    assert ScaledWidth(200, 100, 200) == 400;
  }
}
