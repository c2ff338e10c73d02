/** The image upload and lookup of backend/components/asset_utils.py. The
    storage bucket and the document database are two maps held by an
    `AssetStore`: blobs keyed by (bucket, path) and records keyed by
    (collection, document id). The `use_mocks` switch and the bucket name of
    the environment settings are fields fixed at construction. The clock and
    the URL signer of the storage are parameters. */
module AssetUtils {
  import opened Wrappers
  import opened Strings
  import opened AssetModels
  import AssetMocks
  import Dates

  /** The document collection of images (`FirestoreCollections.IMAGES`). */
  const ImagesCollection := "images"

  /** The bucket folder of images (`StoragePaths.IMAGES`). */
  const ImagesFolder := "images"

  /** `gcs_file_name`: the image id followed by the file's lower-cased extension. */
  function BlobFileName(input: ImageUploadInput): string {
    input.imageId + input.GetFileExtension()
  }

  /** `gcs_file_path`: the blob name inside the images folder. */
  function BlobPath(input: ImageUploadInput): string {
    ImagesFolder + "/" + BlobFileName(input)
  }

  /** `full_gcs_file_path`. */
  function FullGcsPath(bucketName: string, input: ImageUploadInput): string {
    "gs://" + bucketName + "/" + BlobPath(input)
  }

  /** The record `upload_image_asset` stores; `now` is `date_created`'s default. */
  function ImageRecord(bucketName: string, input: ImageUploadInput, now: Dates.DateTime): ImageDoc {
    ImageDoc(
      bucketName,
      BlobPath(input),
      BlobFileName(input),
      input.image.filename,
      FullGcsPath(bucketName, input),
      input.source,
      input.imageName,
      input.context,
      now)
  }

  /** What `get_image_metadata_with_signed_url` returns for a store in the
      given mode holding the given records: the mock's answer in mock mode;
      otherwise nothing for a missing record, and for a present one its fields
      with the URL signed for its bucket and file path. */
  function LookupIn(useMocks: bool, documents: map<(string, string), ImageDoc>, imageId: string,
                    signUrl: (string, string) -> string): Option<ImageMetadata> {
    if useMocks then AssetMocks.MockImageMetadata(imageId)
    else if (ImagesCollection, imageId) !in documents then None
    else
      var doc := documents[(ImagesCollection, imageId)];
      Some(ImageMetadata(doc, signUrl(doc.bucketName, doc.filePath)))
  }

  class AssetStore {
    const useMocks: bool
    const bucketName: string
    var blobs: map<(string, string), seq<bv8>>
    var documents: map<(string, string), ImageDoc>

    constructor (useMocks: bool, bucketName: string,
                 blobs: map<(string, string), seq<bv8>>, documents: map<(string, string), ImageDoc>)
      ensures this.useMocks == useMocks && this.bucketName == bucketName
      ensures this.blobs == blobs && this.documents == documents
    {
      this.useMocks := useMocks;
      this.bucketName := bucketName;
      this.blobs := blobs;
      this.documents := documents;
    }

    /** `write_to_gcs`: the blob at (bucket, path) now holds the content. */
    method WriteBlob(bucket: string, path: string, content: seq<bv8>)
      modifies this
      ensures blobs == old(blobs)[(bucket, path) := content]
      ensures documents == old(documents)
    {
      blobs := blobs[(bucket, path) := content];
    }

    /** `create_document`: the record is stored under (collection, id), and
        the id written is returned. */
    method CreateDocument(collection: string, documentId: string, data: ImageDoc) returns (id: string)
      modifies this
      ensures id == documentId
      ensures documents == old(documents)[(collection, documentId) := data]
      ensures blobs == old(blobs)
    {
      documents := documents[(collection, documentId) := data];
      id := documentId;
    }

    /** `upload_image_asset`. In mock mode nothing is written and the input's
        id is returned. Otherwise the file content is written under the blob
        path in the bucket, then the record is created under the image id in
        the images collection, and the document id returned is the image id. */
    method UploadImageAsset(input: ImageUploadInput, now: Dates.DateTime) returns (documentId: string)
      modifies this
      ensures documentId == input.imageId
      ensures useMocks ==> blobs == old(blobs) && documents == old(documents)
      ensures !useMocks ==>
        && blobs == old(blobs)[(bucketName, BlobPath(input)) := input.image.content]
        && documents == old(documents)[(ImagesCollection, input.imageId) := ImageRecord(bucketName, input, now)]
    {
      if useMocks {
        return input.imageId;
      }
      var gcsFileName := input.imageId + input.GetFileExtension();
      var gcsFilePath := ImagesFolder + "/" + gcsFileName;
      var fullGcsFilePath := "gs://" + bucketName + "/" + gcsFilePath;
      WriteBlob(bucketName, gcsFilePath, input.image.content);
      var imageData := ImageDoc(bucketName, gcsFilePath, gcsFileName, input.image.filename,
        fullGcsFilePath, input.source, input.imageName, input.context, now);
      documentId := CreateDocument(ImagesCollection, input.imageId, imageData);
    }

    /** What a lookup of `imageId` returns in the current state. */
    function Lookup(imageId: string, signUrl: (string, string) -> string): Option<ImageMetadata>
      reads this
    {
      LookupIn(useMocks, documents, imageId, signUrl)
    }

    /** `get_image_metadata_with_signed_url`. In mock mode it answers as the
        mock does for the same id. Otherwise it returns `None` when the images
        collection has no record for the id, and else a new result holding the
        record's fields with `signed_url` signed for its bucket and file path.
        The stores are only read. */
    method GetImageMetadataWithSignedUrl(imageId: string, signUrl: (string, string) -> string)
      returns (r: ImageMetadataResult?)
      ensures r == null <==> Lookup(imageId, signUrl).None?
      ensures r != null ==> fresh(r) && r.View() == Lookup(imageId, signUrl).value
      ensures !useMocks ==> (r == null <==> (ImagesCollection, imageId) !in documents)
    {
      if useMocks {
        r := AssetMocks.MockGetImageMetadataWithSignedUrl(imageId);
        return;
      }
      if (ImagesCollection, imageId) !in documents {
        return null;
      }
      var imageDoc := documents[(ImagesCollection, imageId)];
      r := new ImageMetadataResult.FromDoc(imageDoc);
      r.GenerateSignedUrl(signUrl);
    }
  }

  /** The stored record locates the blob: its full path is `gs://` + bucket +
      `/` + file path, its file path is its file name under `images/`, and
      the file name starts with the image id. The other fields are the
      input's, unchanged. */
  lemma ImageRecordLocatesBlob(bucketName: string, input: ImageUploadInput, now: Dates.DateTime)
    ensures var d := ImageRecord(bucketName, input, now);
      && d.fullGcsPath == "gs://" + d.bucketName + "/" + d.filePath
      && d.filePath == "images/" + d.fileName
      && StartsWith(d.fileName, input.imageId)
      && d.bucketName == bucketName
      && d.originalFileName == input.image.filename && d.source == input.source
      && d.imageName == input.imageName && d.context == input.context
  {
    PrefixOfAppend(input.imageId, input.GetFileExtension());
  }

  /** An upload whose file passes the image-type check stores a blob whose
      name ends with an allowed, lower-case extension. */
  lemma AcceptedUploadHasAllowedExtension(bucketName: string, input: ImageUploadInput, now: Dates.DateTime)
    requires ValidateImageType(input.image).Success?
    ensures exists ext :: ext in AllowedImageExtensions && EndsWith(ImageRecord(bucketName, input, now).filePath, ext)
  {
    ValidateImageTypeMatchesExtension(input);
    var ext := input.GetFileExtension();
    var d := ImageRecord(bucketName, input, now);
    assert d.filePath == ImagesFolder + "/" + input.imageId + ext;
    SuffixOfAppend(ImagesFolder + "/" + input.imageId, ext);
  }

  /** Upload then look up: outside mock mode, after the upload's writes the
      lookup of the same id finds the stored record, the blob it names holds
      the uploaded content, and its URL is signed for exactly that blob. */
  lemma UploadThenLookup(bucketName: string, blobs: map<(string, string), seq<bv8>>,
                         documents: map<(string, string), ImageDoc>, input: ImageUploadInput,
                         now: Dates.DateTime, signUrl: (string, string) -> string)
    ensures var blobs' := blobs[(bucketName, BlobPath(input)) := input.image.content];
      var documents' := documents[(ImagesCollection, input.imageId) := ImageRecord(bucketName, input, now)];
      var found := LookupIn(false, documents', input.imageId, signUrl);
      && found.Some?
      && found.value.doc == ImageRecord(bucketName, input, now)
      && (found.value.doc.bucketName, found.value.doc.filePath) in blobs'
      && blobs'[(found.value.doc.bucketName, found.value.doc.filePath)] == input.image.content
      && found.value.signedUrl == signUrl(bucketName, BlobPath(input))
  {
  }

  /** An upload changes the lookup of no other id. */
  lemma UploadKeepsOtherLookups(bucketName: string, documents: map<(string, string), ImageDoc>,
                                input: ImageUploadInput, now: Dates.DateTime, otherId: string,
                                signUrl: (string, string) -> string)
    requires otherId != input.imageId
    ensures LookupIn(false, documents[(ImagesCollection, input.imageId) := ImageRecord(bucketName, input, now)], otherId, signUrl)
      == LookupIn(false, documents, otherId, signUrl)
  {
  }

  /** In mock mode the stores are never consulted: the answer depends on the
      id alone, `None` exactly for `not_found`. */
  lemma MockLookupIgnoresStore(documents: map<(string, string), ImageDoc>, imageId: string,
                               signUrl: (string, string) -> string)
    ensures LookupIn(true, documents, imageId, signUrl) == AssetMocks.MockImageMetadata(imageId)
    ensures LookupIn(true, documents, imageId, signUrl).None? <==> imageId == "not_found"
  {
  }

  /** Outside mock mode a lookup fails exactly when no record is stored, and
      otherwise carries the stored record unchanged. */
  lemma LookupFindsStoredRecord(documents: map<(string, string), ImageDoc>, imageId: string,
                                signUrl: (string, string) -> string)
    ensures LookupIn(false, documents, imageId, signUrl).None? <==> (ImagesCollection, imageId) !in documents
    ensures LookupIn(false, documents, imageId, signUrl).Some? ==>
      LookupIn(false, documents, imageId, signUrl).value.doc == documents[(ImagesCollection, imageId)]
  {
  }
}
