/** The asset models of backend/models/asset_models.py: the upload input with
    its file-extension logic and image-type check, and the metadata result that
    is decorated in place with a signed URL. The stored image record of
    backend/models/data_models.py is `ImageDoc`. */
module AssetModels {
  import opened Wrappers
  import opened Strings
  import Dates

  /** The allow-list of image extensions (backend/constants.py, lower-case). */
  const AllowedImageExtensions: set<string> := {".png", ".jpg", ".jpeg", ".gif", ".bmp", ".tif", ".tiff"}

  /** An uploaded file: its client-side name and its bytes. */
  datatype UploadFile = UploadFile(filename: string, content: seq<bv8>)

  /** `ImageUploadInput`. The random default of `image_id` is not modelled: the
      id is always given. `source` is the string value of the `ImageSource` enum. */
  datatype ImageUploadInput = ImageUploadInput(
    image: UploadFile,
    source: string,
    sessionId: Option<string>,
    imageName: Option<string>,
    context: Option<string>,
    imageId: string)
  {
    /** `get_file_extension`: the lower-cased extension of the file name. */
    function GetFileExtension(): string {
      Lower(SplitExt(image.filename).1)
    }
  }

  /** The `ValueError` raised by `validate_image_type`. */
  datatype AssetError = InvalidImageType {
    function Message(): string { "Invalid image type" }
  }

  // ---------------------------------------------------------------------------
  // os.path.splitext

  /** The final path component has a character other than `.` strictly between
      positions `sepIndex` and `dotIndex`. */
  predicate HasNonDotBetween(p: string, sepIndex: int, dotIndex: int)
    requires -1 <= sepIndex && dotIndex <= |p|
  {
    exists k :: sepIndex < k < dotIndex && p[k] != '.'
  }

  /** POSIX `os.path.splitext`: the extension runs from the last `.` to the end
      when that dot lies in the final path component and is preceded there by
      some character other than a dot; otherwise it is empty. */
  function SplitExt(p: string): (string, string) {
    var sepIndex := RFind(p, '/');
    var dotIndex := RFind(p, '.');
    if dotIndex > sepIndex && HasNonDotBetween(p, sepIndex, dotIndex) then
      (p[..dotIndex], p[dotIndex..])
    else
      (p, "")
  }

  /** `splitext` splits without losing anything: root and extension rebuild the path. */
  lemma SplitExtRoundTrip(p: string)
    ensures SplitExt(p).0 + SplitExt(p).1 == p
  {
    var sepIndex := RFind(p, '/');
    var dotIndex := RFind(p, '.');
    if dotIndex > sepIndex && HasNonDotBetween(p, sepIndex, dotIndex) {
      assert p[..dotIndex] + p[dotIndex..] == p;
    }
  }

  /** An extension is empty, or a single `.` followed by characters that are
      neither `.` nor `/`. */
  predicate IsExtension(ext: string) {
    ext == [] || (ext[0] == '.' && forall i :: 1 <= i < |ext| ==> ext[i] != '.' && ext[i] != '/')
  }

  lemma SplitExtShape(p: string)
    ensures IsExtension(SplitExt(p).1)
  {
    var sepIndex := RFind(p, '/');
    var dotIndex := RFind(p, '.');
    if dotIndex > sepIndex && HasNonDotBetween(p, sepIndex, dotIndex) {
      var ext := p[dotIndex..];
      forall i | 1 <= i < |ext| ensures ext[i] != '.' && ext[i] != '/' {
        assert ext[i] == p[dotIndex + i];
      }
    }
  }

  /** `get_file_extension` returns `''` or a lower-case string starting with `.`. */
  lemma FileExtensionShape(input: ImageUploadInput)
    ensures var ext := input.GetFileExtension();
      ext == [] || (ext[0] == '.' && forall i :: 1 <= i < |ext| ==> ext[i] != '.' && ext[i] != '/')
    ensures forall i :: 0 <= i < |input.GetFileExtension()| ==> !('A' <= input.GetFileExtension()[i] <= 'Z')
  {
    SplitExtShape(input.image.filename);
  }

  lemma {:induction false} RFindAppend(a: string, b: string, c: char)
    ensures RFind(a + b, c) == if RFind(b, c) >= 0 then |a| + RFind(b, c) else RFind(a, c)
    decreases |b|
  {
    if b == [] {
      assert a + b == a;
    } else {
      assert (a + b)[..|a + b| - 1] == a + b[..|b| - 1];
      RFindAppend(a, b[..|b| - 1], c);
    }
  }

  /** Dots in directory names do not matter: only the final path component
      (the part after the last `/`) decides the extension. */
  lemma DirectoryDotsIgnored(dir: string, base: string)
    requires forall i :: 0 <= i < |base| ==> base[i] != '/'
    ensures SplitExt(dir + "/" + base).1 == SplitExt(base).1
  {
    var p := dir + "/" + base;
    var prefix := dir + "/";
    assert p == prefix + base;
    RFindAppend(prefix, base, '/');
    RFindAppend(prefix, base, '.');
    RFindAppend(dir, "/", '.');
    assert RFind(base, '/') == -1;
    var sepIndex, dotIndex := RFind(p, '/'), RFind(p, '.');
    var sepB, dotB := RFind(base, '/'), RFind(base, '.');
    assert sepIndex == |prefix| - 1 == |dir|;
    if dotB >= 0 {
      assert dotIndex == |prefix| + dotB;
      assert p[dotIndex..] == base[dotB..];
      if HasNonDotBetween(base, sepB, dotB) {
        var k :| sepB < k < dotB && base[k] != '.';
        assert p[|prefix| + k] == base[k];
        assert HasNonDotBetween(p, sepIndex, dotIndex);
      }
      if HasNonDotBetween(p, sepIndex, dotIndex) {
        var k :| sepIndex < k < dotIndex && p[k] != '.';
        assert base[k - |prefix|] == p[k];
        assert HasNonDotBetween(base, sepB, dotB);
      }
    } else {
      assert dotIndex == RFind(dir + "/", '.');
      assert dotIndex <= sepIndex;
    }
  }

  /** Lower-casing keeps the positions of `.` and `/`. */
  lemma {:induction false} RFindLower(p: string, c: char)
    requires c == '.' || c == '/'
    ensures RFind(Lower(p), c) == RFind(p, c)
    decreases |p|
  {
    if p != [] {
      assert Lower(p)[..|p| - 1] == Lower(p[..|p| - 1]);
      RFindLower(p[..|p| - 1], c);
    }
  }

  /** The extension check ignores case: a file name and its lower-cased form
      have the same extension. */
  lemma FileExtensionIgnoresCase(name: string)
    ensures Lower(SplitExt(Lower(name)).1) == Lower(SplitExt(name).1)
  {
    var q := Lower(name);
    RFindLower(name, '.');
    RFindLower(name, '/');
    var sepIndex, dotIndex := RFind(name, '/'), RFind(name, '.');
    assert HasNonDotBetween(q, sepIndex, dotIndex) <==> HasNonDotBetween(name, sepIndex, dotIndex) by {
      if HasNonDotBetween(name, sepIndex, dotIndex) {
        var k :| sepIndex < k < dotIndex && name[k] != '.';
        assert q[k] == LowerChar(name[k]);
      }
      if HasNonDotBetween(q, sepIndex, dotIndex) {
        var k :| sepIndex < k < dotIndex && q[k] != '.';
        assert q[k] == LowerChar(name[k]);
      }
    }
    if dotIndex > sepIndex && HasNonDotBetween(name, sepIndex, dotIndex) {
      assert Lower(q[dotIndex..]) == Lower(name[dotIndex..]);
    }
  }

  // ---------------------------------------------------------------------------
  // The image-type check

  /** `validate_image_type`: the file is accepted, and returned unchanged, when
      the lower-cased extension of its name is in the allow-list. */
  function ValidateImageType(value: UploadFile): (r: Result<UploadFile, AssetError>)
    ensures r.Success? ==> r.value == value
    ensures r.Failure? ==> r.error == InvalidImageType
  {
    var (_, extension) := SplitExt(value.filename);
    if Lower(extension) !in AllowedImageExtensions then Failure(InvalidImageType) else Success(value)
  }

  /** The check and `get_file_extension` use the same extension: an input's
      file is accepted exactly when its extension is allowed. */
  lemma ValidateImageTypeMatchesExtension(input: ImageUploadInput)
    ensures ValidateImageType(input.image).Success? <==> input.GetFileExtension() in AllowedImageExtensions
  {
  }

  /** Accepted names are those whose extension is allowed whatever its case
      (`good.JpG` passes). A name without an extension is always rejected. */
  lemma ValidateImageTypeIgnoresCase(f: UploadFile)
    ensures ValidateImageType(f).Success? <==> ValidateImageType(UploadFile(Lower(f.filename), f.content)).Success?
    ensures SplitExt(f.filename).1 == [] ==> ValidateImageType(f).Failure?
  {
    FileExtensionIgnoresCase(f.filename);
  }

  /** `RFind` finds the last occurrence: position `i` when `p[i] == c` and no
      later character is `c`. */
  lemma RFindIs(p: string, c: char, i: int)
    requires -1 <= i < |p|
    requires i >= 0 ==> p[i] == c
    requires forall k :: i < k < |p| ==> p[k] != c
    ensures RFind(p, c) == i
  {
  }

  /** The extension of a name whose last `.` is at `dot` and has no `/`, where
      `nonDot` is a position before the dot holding some other character. */
  lemma SplitExtPlainName(p: string, dot: int, nonDot: int)
    requires 0 <= nonDot < dot < |p|
    requires p[dot] == '.' && p[nonDot] != '.'
    requires forall k :: dot < k < |p| ==> p[k] != '.'
    requires forall k :: 0 <= k < |p| ==> p[k] != '/'
    ensures SplitExt(p).1 == p[dot..]
  {
    RFindIs(p, '.', dot);
    RFindIs(p, '/', -1);
    assert HasNonDotBetween(p, -1, dot);
  }

  /** The cases of the repository's tests: an upper-case extension,
      dots in a directory name, leading dots, and no extension at all. */
  lemma UpperCaseExtensionExample()
    ensures Lower(SplitExt("image.JPG").1) == ".jpg"
  {
    SplitExtPlainName("image.JPG", 5, 0);
    assert "image.JPG"[5..] == ".JPG";
  }

  lemma DottedDirectoryExample()
    ensures SplitExt("folder.with.dots" + "/" + "image.png").1 == ".png"
  {
    DirectoryDotsIgnored("folder.with.dots", "image.png");
    SplitExtPlainName("image.png", 5, 0);
    assert "image.png"[5..] == ".png";
  }

  lemma LeadingDotsExample()
    ensures SplitExt(".hidden.jpg").1 == ".jpg"
    ensures SplitExt("...manydots.jpg").1 == ".jpg"
  {
    SplitExtPlainName(".hidden.jpg", 7, 1);
    assert ".hidden.jpg"[7..] == ".jpg";
    SplitExtPlainName("...manydots.jpg", 11, 3);
    assert "...manydots.jpg"[11..] == ".jpg";
  }

  lemma NoExtensionExample()
    ensures SplitExt("").1 == "" && SplitExt("image").1 == ""
    ensures SplitExt("no_extension").1 == ""
    ensures SplitExt(".bashrc").1 == ""
  {
    NoDotNoExtension("image");
    NoDotNoExtension("no_extension");
    RFindIs(".bashrc", '.', 0);
  }

  /** A name with no `.` at all has no extension. */
  lemma NoDotNoExtension(p: string)
    requires forall k :: 0 <= k < |p| ==> p[k] != '.'
    ensures SplitExt(p).1 == ""
  {
    RFindIs(p, '.', -1);
  }

  /** Only dots between the last `/` and the last `.`: the final component is
      a run of dots followed by a dot-free tail, and there is no extension. */
  lemma OnlyLeadingDotsNoExtension(p: string)
    requires !HasNonDotBetween(p, RFind(p, '/'), RFind(p, '.'))
    ensures SplitExt(p).1 == ""
  {
  }

  // ---------------------------------------------------------------------------
  // Stored record and metadata result

  /** `data_models.Image`: the record stored in the document store. */
  datatype ImageDoc = ImageDoc(
    bucketName: string,
    filePath: string,
    fileName: string,
    originalFileName: string,
    fullGcsPath: string,
    source: string,
    imageName: Option<string>,
    context: Option<string>,
    dateCreated: Dates.DateTime)

  /** The value of an `ImageMetadataResult`: the record's fields and the signed URL. */
  datatype ImageMetadata = ImageMetadata(doc: ImageDoc, signedUrl: string)

  /** `ImageMetadataResult`: the record's fields plus `signed_url`, which
      `generate_signed_url` sets in place. */
  class ImageMetadataResult {
    var doc: ImageDoc
    var signedUrl: string

    /** Built from a stored record (`ImageMetadataResult(**image_doc.model_dump())`):
        `signed_url` takes its default `''`. */
    constructor FromDoc(doc: ImageDoc)
      ensures this.doc == doc && signedUrl == ""
    {
      this.doc := doc;
      signedUrl := "";
    }

    /** Built with every field given, `signed_url` included. */
    constructor (doc: ImageDoc, signedUrl: string)
      ensures this.doc == doc && this.signedUrl == signedUrl
    {
      this.doc := doc;
      this.signedUrl := signedUrl;
    }

    function View(): ImageMetadata
      reads this
    {
      ImageMetadata(doc, signedUrl)
    }

    /** `generate_signed_url`: asks the storage for a signed URL of
        (`bucket_name`, `file_path`) and stores it; no other field changes.
        The storage call is the parameter `signUrl`. */
    method GenerateSignedUrl(signUrl: (string, string) -> string)
      modifies this
      ensures doc == old(doc)
      ensures signedUrl == signUrl(doc.bucketName, doc.filePath)
    {
      signedUrl := signUrl(doc.bucketName, doc.filePath);
    }
  }
}
