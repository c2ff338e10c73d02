/** The Vertex AI request model of backend/models/vertexai_models.py: the two
    field validators of `VertexAIGenerateVideoRequest` and the MIME type read
    from a `data:` URI. */
module VertexAIModels {
  import opened Wrappers
  import opened Strings

  /** `VeoAIModel`. */
  datatype VeoAIModel = Veo20GenerateExp | Veo1Preview0815 {
    function Id(): string {
      match this
      case Veo20GenerateExp => "veo-2.0-generate-exp"
      case Veo1Preview0815 => "veo-001-preview-0815"
    }
  }

  /** The `ValueError`s raised by the field validators. */
  datatype RequestError = StorageUriPrefix | SampleCountRange {
    function Message(): string {
      match this
      case StorageUriPrefix => "google_cloud_storage_uri must start with \"gs://\""
      case SampleCountRange => "sample_count must be between 1 and 4"
    }
  }

  const DefaultRegion := "us-central1"
  const DefaultModel := Veo20GenerateExp
  const DefaultSampleCount := 4

  /** `VertexAIGenerateVideoRequest`. */
  datatype GenerateVideoRequest = GenerateVideoRequest(
    prompt: string,
    projectId: string,
    storageUri: string,
    region: string,
    veoModelId: VeoAIModel,
    sampleCount: int,
    image: Option<string>)

  /** `validate_storage_uri`: the URI is accepted unchanged iff it starts with `gs://`. */
  function ValidateStorageUri(uri: string): (r: Result<string, RequestError>)
    ensures r.Success? <==> |uri| >= 5 && uri[..5] == "gs://"
    ensures r.Success? ==> r.value == uri
    ensures r.Failure? ==> r.error == StorageUriPrefix
  {
    if !StartsWith(uri, "gs://") then Failure(StorageUriPrefix) else Success(uri)
  }

  /** `validate_sample_count`: the count is accepted unchanged iff 1 <= n <= 4. */
  function ValidateSampleCount(n: int): (r: Result<int, RequestError>)
    ensures r.Success? <==> 1 <= n <= 4
    ensures r.Success? ==> r.value == n
    ensures r.Failure? ==> r.error == SampleCountRange
  {
    if !(1 <= n <= 4) then Failure(SampleCountRange) else Success(n)
  }

  /** Building a request runs both field validators; pydantic reports every
      failing field, in declaration order. */
  function NewGenerateVideoRequest(
    prompt: string, projectId: string, storageUri: string, region: string,
    veoModelId: VeoAIModel, sampleCount: int, image: Option<string>)
    : (r: Result<GenerateVideoRequest, seq<RequestError>>)
    ensures r.Success? <==> StartsWith(storageUri, "gs://") && 1 <= sampleCount <= 4
    ensures r.Success? ==> r.value == GenerateVideoRequest(prompt, projectId, storageUri, region, veoModelId, sampleCount, image)
    ensures r.Failure? ==>
      && (StorageUriPrefix in r.error <==> !StartsWith(storageUri, "gs://"))
      && (SampleCountRange in r.error <==> !(1 <= sampleCount <= 4))
  {
    var uriErrors := if ValidateStorageUri(storageUri).Failure? then [StorageUriPrefix] else [];
    var countErrors := if ValidateSampleCount(sampleCount).Failure? then [SampleCountRange] else [];
    if uriErrors + countErrors == [] then
      Success(GenerateVideoRequest(prompt, projectId, storageUri, region, veoModelId, sampleCount, image))
    else
      Failure(uriErrors + countErrors)
  }

  /** A request with only the required fields given takes the defaults, and
      the default sample count is itself in range. */
  lemma DefaultRequestAccepted(prompt: string, projectId: string, storageUri: string)
    requires StartsWith(storageUri, "gs://")
    ensures NewGenerateVideoRequest(prompt, projectId, storageUri, DefaultRegion, DefaultModel, DefaultSampleCount, None)
      == Success(GenerateVideoRequest(prompt, projectId, storageUri, "us-central1", Veo20GenerateExp, 4, None))
  {
  }

  /** The counts of the repository's tests at and beyond the bounds. */
  lemma SampleCountExamples()
    ensures ValidateSampleCount(1).Success? && ValidateSampleCount(4).Success?
    ensures ValidateSampleCount(0).Failure? && ValidateSampleCount(5).Failure?
    ensures ValidateStorageUri("https://bucket/path").Failure?
    ensures ValidateStorageUri("gs://bucket/path").Success?
  {
    assert "https://bucket/path"[0] != "gs://"[0];
  }

  // ---------------------------------------------------------------------------
  // get_image_mime_type

  /** The regular-expression class `[\w/\-\.]`, with `\w` read as ASCII
      letters, digits and `_`. */
  predicate IsMimeChar(c: char) {
    ('a' <= c <= 'z') || ('A' <= c <= 'Z') || ('0' <= c <= '9') || c == '_' || c == '/' || c == '-' || c == '.'
  }

  /** The length of the longest prefix of `s` made of MIME characters: what the
      greedy `+` consumes. */
  function MimeRun(s: string): (n: nat)
    ensures n <= |s|
    ensures forall i :: 0 <= i < n ==> IsMimeChar(s[i])
    ensures n < |s| ==> !IsMimeChar(s[n])
  {
    if s == [] || !IsMimeChar(s[0]) then 0 else 1 + MimeRun(s[1..])
  }

  /** The anchored match of `^data:(?P<mime_type>[\w/\-\.]+);base64`. Since
      `;` is outside the class, the group can only end where the run of class
      characters ends, so backtracking never finds another match. */
  function MatchDataUri(image: string): Option<string> {
    if !StartsWith(image, "data:") then None
    else
      var rest := image[5..];
      var n := MimeRun(rest);
      if n >= 1 && StartsWith(rest[n..], ";base64") then Some(rest[..n]) else None
  }

  /** `get_image_mime_type`. */
  function GetImageMimeType(image: Option<string>): (r: Option<string>)
    ensures image.None? ==> r.None?
  {
    match image
    case None => None
    case Some(s) => MatchDataUri(s)
  }

  predicate IsMimeType(m: string) {
    |m| >= 1 && forall i :: 0 <= i < |m| ==> IsMimeChar(m[i])
  }

  lemma {:induction false} MimeRunAppend(m: string, s: string)
    requires forall i :: 0 <= i < |m| ==> IsMimeChar(m[i])
    ensures MimeRun(m + s) == |m| + MimeRun(s)
    decreases |m|
  {
    if m != [] {
      assert (m + s)[1..] == m[1..] + s;
      MimeRunAppend(m[1..], s);
    } else {
      assert m + s == s;
    }
  }

  /** Completeness: any image of the form `data:` + m + `;base64` + rest, with
      m a non-empty run of class characters, yields m, whatever follows. */
  lemma MimeTypeOfDataUri(m: string, rest: string)
    requires IsMimeType(m)
    ensures GetImageMimeType(Some("data:" + m + ";base64" + rest)) == Some(m)
  {
    var image := "data:" + m + ";base64" + rest;
    var tail := ";base64" + rest;
    assert image[..5] == "data:";
    assert image[5..] == m + tail;
    MimeRunAppend(m, tail);
    assert MimeRun(tail) == 0 by { assert !IsMimeChar(tail[0]); }
    assert (m + tail)[|m|..] == tail;
    assert tail[..7] == ";base64";
    assert (m + tail)[..|m|] == m;
  }

  /** Soundness: a returned MIME type is non-empty, contains no `;`, and the
      image is `data:`, that type, then `;base64`. Together with the lemma
      above, the result is exactly the text between `data:` and the first `;`. */
  lemma MimeTypeSound(image: string)
    requires GetImageMimeType(Some(image)).Some?
    ensures var m := GetImageMimeType(Some(image)).value;
      && IsMimeType(m)
      && (forall i :: 0 <= i < |m| ==> m[i] != ';')
      && StartsWith(image, "data:" + m + ";base64")
  {
    var rest := image[5..];
    var n := MimeRun(rest);
    var m := rest[..n];
    assert image[..5 + n + 7] == "data:" + m + ";base64" by {
      assert image[..5] == "data:";
      assert image[5..5 + n] == m;
      assert image[5 + n..5 + n + 7] == rest[n..][..7];
    }
  }

  /** The repository's examples: a PNG data URI, and an image without the prefix.
      The PNG URI is written as the concatenation of its parts. */
  lemma PngMimeTypeExample()
    ensures GetImageMimeType(Some("data:" + "image/png" + ";base64" + ",iVBORw0KGgo=")) == Some("image/png")
  {
    PngIsMimeType();
    MimeTypeOfDataUri("image/png", ",iVBORw0KGgo=");
  }

  lemma PngIsMimeType()
    ensures IsMimeType("image/png")
  {
    var m := "image/png";
    assert forall i :: 0 <= i < |m| ==> IsMimeChar(m[i]) by {
      forall i | 0 <= i < |m| ensures IsMimeChar(m[i]) {
        assert m[i] in "image/png";
      }
    }
  }

  lemma MissingPrefixExample()
    ensures GetImageMimeType(Some("invalid-b64")) == None
  {
    assert "invalid-b64"[0] != "data:"[0];
  }
}
