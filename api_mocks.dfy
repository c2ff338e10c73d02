/** The Veo responders of backend/mocks/api_mocks.py, which stand in for the
    video-generation API. The response records take the fields these
    responders use; backend/models/api_models.py is not part of this model. */
module ApiMocks {
  import opened Wrappers
  import opened Strings

  datatype GenerateVideoResponse = GenerateVideoResponse(operationName: string)

  datatype Video = Video(uri: string, encoding: string)

  datatype VideoSample = VideoSample(video: Video)

  datatype GeneratedSamples = GeneratedSamples(generatedSamples: seq<VideoSample>)

  datatype OperationStatusRequest = OperationStatusRequest(operationName: string)

  datatype OperationStatusResponse = OperationStatusResponse(
    name: string,
    done: bool,
    response: Option<GeneratedSamples>)

  const MockOperationName := "projects/PROJECT_ID/operations/OPERATION_ID"
  const DefaultBucketName := "mock-storage-bucket-name"
  const DefaultNumOfVideos := 4

  /** `mock_veo_generate_video_response`: always the same operation name. */
  function MockVeoGenerateVideoResponse(): (r: GenerateVideoResponse)
    ensures r.operationName == MockOperationName
  {
    GenerateVideoResponse("projects/PROJECT_ID/operations/OPERATION_ID")
  }

  /** The URI of sample `i` in bucket `bucket`. */
  function SampleUri(bucket: string, i: nat): string {
    "gs://" + bucket + "/veo/generated/sample_" + NatToString(i) + ".mp4"
  }

  /** `range(n)` is empty for a negative `n`. */
  function RangeLength(n: int): nat {
    if n < 0 then 0 else n
  }

  /** `mock_veo_operation_status_response`: a finished operation named after
      the request, with one `video/mp4` sample per index of
      `range(num_of_videos)`, in index order. */
  method MockVeoOperationStatusResponse(request: OperationStatusRequest, gcsBucketName: string, numOfVideos: int)
    returns (r: OperationStatusResponse)
    ensures r.name == request.operationName && r.done && r.response.Some?
    ensures |r.response.value.generatedSamples| == RangeLength(numOfVideos)
    ensures forall i :: 0 <= i < |r.response.value.generatedSamples| ==>
      r.response.value.generatedSamples[i] == VideoSample(Video(SampleUri(gcsBucketName, i), "video/mp4"))
  {
    var generatedVideoSamples: seq<VideoSample> := [];
    var i := 0;
    while i < numOfVideos
      invariant 0 <= i == |generatedVideoSamples|
      invariant numOfVideos >= 0 ==> i <= numOfVideos
      invariant numOfVideos < 0 ==> i == 0
      invariant forall k :: 0 <= k < i ==>
        generatedVideoSamples[k] == VideoSample(Video(SampleUri(gcsBucketName, k), "video/mp4"))
    {
      var mockVideo := Video("gs://" + gcsBucketName + "/veo/generated/sample_" + NatToString(i) + ".mp4", "video/mp4");
      generatedVideoSamples := generatedVideoSamples + [VideoSample(mockVideo)];
      i := i + 1;
    }
    r := OperationStatusResponse(request.operationName, true, Some(GeneratedSamples(generatedVideoSamples)));
  }

  lemma {:induction false} AppendCancel(p: string, x: string, y: string, s: string)
    requires p + x + s == p + y + s
    ensures x == y
  {
    assert |x| == |y|;
    assert x == (p + x + s)[|p|..|p| + |x|];
    assert y == (p + y + s)[|p|..|p| + |y|];
  }

  /** Different indices give different URIs, so no two samples of a response
      share a URI. */
  lemma SampleUrisDistinct(bucket: string, i: nat, j: nat)
    ensures SampleUri(bucket, i) == SampleUri(bucket, j) <==> i == j
  {
    if SampleUri(bucket, i) == SampleUri(bucket, j) {
      AppendCancel("gs://" + bucket + "/veo/generated/sample_", NatToString(i), NatToString(j), ".mp4");
      NatToStringInjective(i, j);
    }
  }

  /** Every sample URI lies in the given bucket and names an `.mp4` file. */
  lemma SampleUriInBucket(bucket: string, i: nat)
    ensures StartsWith(SampleUri(bucket, i), "gs://" + bucket + "/")
    ensures EndsWith(SampleUri(bucket, i), ".mp4")
  {
    var u := SampleUri(bucket, i);
    var p := "gs://" + bucket + "/veo/generated/sample_" + NatToString(i);
    assert u[..|"gs://" + bucket + "/"|] == "gs://" + bucket + "/";
    SuffixOfAppend(p, ".mp4");
  }

  /** The status responder with the defaults returns four samples in the
      default bucket, of which the first is `sample_0.mp4`. */
  method DefaultStatusResponseExample(request: OperationStatusRequest)
    returns (r: OperationStatusResponse)
    ensures r.response.Some? && |r.response.value.generatedSamples| == 4
    ensures r.response.value.generatedSamples[0].video.uri
      == "gs://" + "mock-storage-bucket-name" + "/veo/generated/sample_" + "0" + ".mp4"
  {
    r := MockVeoOperationStatusResponse(request, DefaultBucketName, DefaultNumOfVideos);
    assert NatToString(0) == "0";
  }
}
