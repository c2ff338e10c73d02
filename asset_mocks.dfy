/** `mock_get_image_metadata_with_signed_url` of backend/mocks/asset_mocks.py:
    `None` for the id `not_found`, otherwise one fixed record. */
module AssetMocks {
  import opened Wrappers
  import opened AssetModels
  import Dates

  const NotFoundId := "not_found"

  /** The fixed record the mock returns. */
  const MockDoc := ImageDoc(
    "mock-bucket",
    "images/mock_image.jpg",
    "mock_image.jpg",
    "original_mock.jpg",
    "gs://mock-bucket/images/mock_image.jpg",
    "Brand",
    Some("Mock Image"),
    Some("Mock Context"),
    Dates.DateTime(Dates.Date(2025, 1, 1), 10, 0, 0, 0))

  const MockSignedUrl := "/assets/gen-v-logo.png"

  /** The value the mock returns for an id. */
  function MockImageMetadata(imageId: string): (r: Option<ImageMetadata>)
    ensures r.None? <==> imageId == "not_found"
    ensures r.Some? ==> r.value.signedUrl == "/assets/gen-v-logo.png"
  {
    if imageId == NotFoundId then None else Some(ImageMetadata(MockDoc, MockSignedUrl))
  }

  /** `mock_get_image_metadata_with_signed_url`: a new result object holding
      the fixed record, or `None` for `not_found`. */
  method MockGetImageMetadataWithSignedUrl(imageId: string) returns (r: ImageMetadataResult?)
    ensures r == null <==> imageId == NotFoundId
    ensures r != null ==> fresh(r) && Some(r.View()) == MockImageMetadata(imageId)
  {
    if imageId == NotFoundId {
      return null;
    }
    r := new ImageMetadataResult(MockDoc, MockSignedUrl);
  }

  /** The record does not depend on the id: every id other than `not_found`
      gets the same one. */
  lemma MockIndependentOfId(a: string, b: string)
    requires a != NotFoundId && b != NotFoundId
    ensures MockImageMetadata(a).Some? && MockImageMetadata(a) == MockImageMetadata(b)
  {
  }

  lemma FullPathLiteral()
    ensures "gs://" + "mock-bucket" + "/" + "images/mock_image.jpg" == "gs://mock-bucket/images/mock_image.jpg"
  {
    assert "gs://" + "mock-bucket" + "/" == "gs://mock-bucket/";
  }

  /** The record is consistent: its full path is `gs://` + bucket + `/` + file
      path, and its file path is the file name under `images/`. */
  lemma MockRecordConsistent(imageId: string)
    requires MockImageMetadata(imageId).Some?
    ensures var d := MockImageMetadata(imageId).value.doc;
      d.fullGcsPath == "gs://" + d.bucketName + "/" + d.filePath
      && d.filePath == "images/" + d.fileName
  {
    FullPathLiteral();
    assert "images/" + "mock_image.jpg" == "images/mock_image.jpg";
  }
}
