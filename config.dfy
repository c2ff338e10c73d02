/** The application settings of backend/gen_v/config.py and the strings its
    computed fields derive from them. Loading from the environment is not
    modelled: a settings value is given with every field. */
module Config {
  import opened Strings
  import VertexAIModels

  /** `prompt_type`: `Literal["CUSTOM", "GEMINI"]`. */
  datatype PromptType = Custom | Gemini

  /** `video_orientation`: `Literal["LANDSCAPE", "PORTRAIT"]`. */
  datatype Orientation = Landscape | Portrait

  /** `veo_person_generation`: `Literal["allow_adult", "dont_allow"]`. */
  datatype PersonGeneration = AllowAdult | DontAllow

  datatype AppSettings = AppSettings(
    gcpProjectId: string,
    gcpBucketName: string,
    gcsFolderName: string,
    gcpRegion: string,
    veoModelName: string,
    veoDurationSeconds: int,
    veoSampleCount: int,
    veoNegativePrompt: string,
    veoPromptEnhance: bool,
    veoPersonGeneration: PersonGeneration,
    veoAddDateToOutputPath: bool,
    geminiModelName: string,
    promptType: PromptType,
    customVideoPrompt: string,
    geminiBasePrompt: string,
    videoOrientation: Orientation)
  {
    /** `input_images_bucket_path`. */
    function InputImagesBucketPath(): string {
      gcsFolderName + "/input-images/"
    }

    /** `video_model_uri`. */
    function VideoModelUri(): string {
      "https://" + gcpRegion + "-aiplatform.googleapis.com/v1beta1/"
      + "projects/" + gcpProjectId + "/locations/" + gcpRegion
      + "/publishers/google" + "/models/" + veoModelName
    }

    /** `prediction_endpoint`. */
    function PredictionEndpoint(): string {
      VideoModelUri() + ":predictLongRunning"
    }

    /** `fetch_endpoint`. */
    function FetchEndpoint(): string {
      VideoModelUri() + ":fetchPredictOperation"
    }

    /** `veo_output_gcs_uri_base`. */
    function VeoOutputGcsUriBase(): string {
      "gs://" + gcpBucketName + "/" + gcsFolderName + "/output-videos/veo/"
    }

    /** `selected_prompt_text`. */
    function SelectedPromptText(): string {
      if promptType == Custom then customVideoPrompt else geminiBasePrompt
    }

    /** `aspect_ratio`. */
    function AspectRatio(): string {
      if videoOrientation == Portrait then "9:16" else "16:9"
    }

    /** `output_file_prefix`. */
    function OutputFilePrefix(): string {
      if videoOrientation == Portrait then "video-portrait" else "video-landscape"
    }
  }

  const DefaultCustomPrompt := "Animate this image in a way that is most appropriate for the content in the image"

  const DefaultGeminiBasePrompt :=
    "Analyse the image and write a prompt for a generative video AI to"
    + " animate the video in the most appropriate way for the content to be"
    + " displayed in an online ad.  Consider the function of the main object in"
    + " the image when deciding how to animate it. If there is a background,"
    + " focus on animating the primary object only. Output the prompt only."
    + " Don't show any of the analysis or headings in your response, only"
    + " provide the prompt you created."

  /** Settings with the three required fields given and every other field at its default. */
  function DefaultSettings(projectId: string, bucketName: string, folderName: string): (s: AppSettings)
    ensures s.gcpProjectId == projectId && s.gcpBucketName == bucketName && s.gcsFolderName == folderName
    ensures s.gcpRegion == "us-central1" && s.veoModelName == "veo-2.0-generate-001"
    ensures s.promptType == Custom && s.videoOrientation == Landscape
    ensures s.veoSampleCount == 2 && s.veoDurationSeconds == 5
  {
    AppSettings(projectId, bucketName, folderName, "us-central1", "veo-2.0-generate-001", 5, 2,
      "copyrighted content", true, AllowAdult, true, "gemini-2.0-flash", Custom,
      DefaultCustomPrompt, DefaultGeminiBasePrompt, Landscape)
  }

  /** The input-image path lies inside the folder and names a directory. */
  lemma InputImagesBucketPathInFolder(s: AppSettings)
    ensures StartsWith(s.InputImagesBucketPath(), s.gcsFolderName + "/")
    ensures EndsWith(s.InputImagesBucketPath(), "/input-images/")
  {
    var p := s.InputImagesBucketPath();
    assert p[..|s.gcsFolderName| + 1] == s.gcsFolderName + "/";
    assert p[|p| - |"/input-images/"|..] == "/input-images/";
  }

  /** The two endpoints are the model URI with an operation suffix: both
      extend it, they differ from each other, and both are `https` URLs. */
  lemma EndpointsExtendModelUri(s: AppSettings)
    ensures StartsWith(s.PredictionEndpoint(), s.VideoModelUri())
    ensures StartsWith(s.FetchEndpoint(), s.VideoModelUri())
    ensures s.PredictionEndpoint() != s.FetchEndpoint()
    ensures StartsWith(s.PredictionEndpoint(), "https://") && StartsWith(s.FetchEndpoint(), "https://")
  {
    var u := s.VideoModelUri();
    assert s.PredictionEndpoint()[..|u|] == u;
    assert s.FetchEndpoint()[..|u|] == u;
    assert s.PredictionEndpoint()[|u| + 1] == 'p' && s.FetchEndpoint()[|u| + 1] == 'f';
    assert u[..8] == "https://";
    assert s.PredictionEndpoint()[..8] == u[..8];
    assert s.FetchEndpoint()[..8] == u[..8];
  }

  /** The model URI names the region in its host and then the project and
      the region again; it ends with the model name. */
  lemma VideoModelUriShape(s: AppSettings)
    ensures StartsWith(s.VideoModelUri(), "https://" + s.gcpRegion + "-aiplatform.googleapis.com/v1beta1/" + "projects/" + s.gcpProjectId
      + "/locations/" + s.gcpRegion)
    ensures EndsWith(s.VideoModelUri(), "/models/" + s.veoModelName)
  {
    var p0 := "https://" + s.gcpRegion + "-aiplatform.googleapis.com/v1beta1/" + "projects/" + s.gcpProjectId
      + "/locations/" + s.gcpRegion;
    var p1 := p0 + "/publishers/google";
    var p2 := p1 + "/models/";
    var u := p2 + s.veoModelName;
    PrefixOfAppend(p0, "/publishers/google");
    PrefixOfAppend(p1, "/models/");
    PrefixOfAppend(p2, s.veoModelName);
    PrefixTransitive(u, p2, p1);
    PrefixTransitive(u, p1, p0);
    assert u == p1 + ("/models/" + s.veoModelName);
    SuffixOfAppend(p1, "/models/" + s.veoModelName);
  }

  /** The prediction endpoint names the model and then the long-running operation. */
  lemma PredictionEndpointNamesModel(s: AppSettings)
    ensures EndsWith(s.PredictionEndpoint(), "/models/" + s.veoModelName + ":predictLongRunning")
  {
    var front := "https://" + s.gcpRegion + "-aiplatform.googleapis.com/v1beta1/" + "projects/" + s.gcpProjectId
      + "/locations/" + s.gcpRegion + "/publishers/google";
    assert s.PredictionEndpoint() == front + ("/models/" + s.veoModelName + ":predictLongRunning");
    SuffixOfAppend(front, "/models/" + s.veoModelName + ":predictLongRunning");
  }

  /** The default settings address the `us-central1` endpoint of `veo-2.0-generate-001`. */
  lemma DefaultPredictionEndpoint(projectId: string, bucketName: string, folderName: string)
    ensures StartsWith(DefaultSettings(projectId, bucketName, folderName).PredictionEndpoint(),
      "https://" + "us-central1" + "-aiplatform.googleapis.com/v1beta1/" + "projects/" + projectId)
    ensures EndsWith(DefaultSettings(projectId, bucketName, folderName).PredictionEndpoint(),
      "/models/" + "veo-2.0-generate-001" + ":predictLongRunning")
  {
    var s := DefaultSettings(projectId, bucketName, folderName);
    VideoModelUriShape(s);
    EndpointsExtendModelUri(s);
    PredictionEndpointNamesModel(s);
    var p0 := "https://" + "us-central1" + "-aiplatform.googleapis.com/v1beta1/" + "projects/" + projectId;
    PrefixTransitive(s.PredictionEndpoint(), s.VideoModelUri(), p0);
  }

  /** The Veo output base is a storage URI that a generate-video request
      accepts, and it names a directory inside the bucket. */
  lemma OutputBaseIsStorageUri(s: AppSettings)
    ensures VertexAIModels.ValidateStorageUri(s.VeoOutputGcsUriBase()).Success?
    ensures StartsWith(s.VeoOutputGcsUriBase(), "gs://" + s.gcpBucketName + "/")
    ensures EndsWith(s.VeoOutputGcsUriBase(), "/output-videos/veo/")
  {
    var b := s.VeoOutputGcsUriBase();
    assert b[..5] == "gs://";
    assert b[..5 + |s.gcpBucketName| + 1] == "gs://" + s.gcpBucketName + "/";
    assert b[|b| - |"/output-videos/veo/"|..] == "/output-videos/veo/";
  }

  /** The prompt text is chosen by the prompt type: the custom prompt exactly
      for `CUSTOM`, the Gemini base prompt exactly for `GEMINI`. */
  lemma SelectedPromptFollowsType(s: AppSettings)
    requires s.customVideoPrompt != s.geminiBasePrompt
    ensures s.SelectedPromptText() == s.customVideoPrompt <==> s.promptType == Custom
    ensures s.SelectedPromptText() == s.geminiBasePrompt <==> s.promptType == Gemini
  {
  }

  /** Aspect ratio and file prefix agree with each other and with the
      orientation: portrait exactly when `9:16`, exactly when `video-portrait`. */
  lemma OrientationConsistent(s: AppSettings)
    ensures s.AspectRatio() == "9:16" <==> s.videoOrientation == Portrait
    ensures s.OutputFilePrefix() == "video-portrait" <==> s.videoOrientation == Portrait
    ensures s.AspectRatio() == "16:9" <==> s.OutputFilePrefix() == "video-landscape"
  {
    assert "9:16" != "16:9" && "video-portrait" != "video-landscape";
  }

  /** The defaults are a landscape video with the custom prompt. */
  lemma DefaultsLandscapeCustom(projectId: string, bucketName: string, folderName: string)
    ensures var s := DefaultSettings(projectId, bucketName, folderName);
      s.AspectRatio() == "16:9" && s.OutputFilePrefix() == "video-landscape"
      && s.SelectedPromptText() == DefaultCustomPrompt
  {
  }
}
