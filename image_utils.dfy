/** `rescale_image_height` of backend/gen_v/utils/image.py: the same
    height-driven rescale as the video-editing helper, followed by a
    conversion to RGBA. */
module ImageUtils {
  import opened Wrappers
  import VideoEditing

  /** `rescale_image_height`: the rescaled image converted to `RGBA`. */
  function RescaleImageHeight(images: map<string, VideoEditing.Image>, imagePath: string, desiredHeight: int)
    : (r: Result<VideoEditing.Image, VideoEditing.MediaError>)
    ensures r.Success? ==> r.value.mode == "RGBA"
    ensures r.Success? <==> VideoEditing.RescaleImage(images, imagePath, desiredHeight).Success?
    ensures r.Success? ==>
      var v := VideoEditing.RescaleImage(images, imagePath, desiredHeight).value;
      r.value.width == v.width && r.value.height == v.height
    ensures r.Failure? ==> r.error == VideoEditing.RescaleImage(images, imagePath, desiredHeight).error
  {
    var image :- VideoEditing.RescaleImage(images, imagePath, desiredHeight);
    Success(image.(mode := "RGBA"))
  }

  /** The result has the requested height and the truncated proportional width. */
  lemma RescaleImageHeightDimensions(images: map<string, VideoEditing.Image>, imagePath: string, desiredHeight: int)
    requires RescaleImageHeight(images, imagePath, desiredHeight).Success?
    ensures var r := RescaleImageHeight(images, imagePath, desiredHeight).value;
      var old_ := images[imagePath];
      && r.height == desiredHeight
      && r.width * old_.height <= old_.width * desiredHeight < (r.width + 1) * old_.height
  {
  }

  /** The repository's test: 200x100 rescaled to height 200 is 400x200 in RGBA. */
  lemma RescaleImageHeightExample()
    ensures RescaleImageHeight(map["test_image.png" := VideoEditing.Image(200, 100, "RGB")], "test_image.png", 200)
      == Success(VideoEditing.Image(400, 200, "RGBA"))
  {
    VideoEditing.RescaleExample();
  }
}
