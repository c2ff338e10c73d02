# gen-v backend helpers in Dafny

This project models the deterministic helper layer of the gen-v backend. The
backend accepts uploaded images, stores them in a storage bucket with a record
in a document database, asks a video-generation service (Veo on Vertex AI) for
clips, and composes videos. The parts modelled here are the small pieces whose
behaviour can be stated exactly:

- the input validators of the media and request models (`TextInput`,
  `RGBColor`, `VertexAIGenerateVideoRequest`, `ImageUploadInput`);
- the string derivations: the file extension with `os.path.splitext`
  semantics, the MIME type of a `data:` URI, the endpoint and storage URIs of
  the settings, and the blob paths of an uploaded image;
- the `weekW-YYYY` label of a date. It follows CPython's
  `date.isocalendar()` and is proved to agree with the ISO week date of
  ISO 8601:2004 section 4.1.4: weeks start on Monday, and week 1 is the week
  holding January 4;
- the width and height arithmetic of the two image-rescale helpers;
- the upload and lookup of image assets. The bucket and the document
  collection are two maps inside an `AssetStore` object, and the mock-mode
  switch is one of its fields;
- the deterministic mock responders used in place of the video API and the
  asset lookup.

One Dafny module stands for each source file:

| Dafny file | module | source |
|---|---|---|
| media_models.dfy | MediaModels | backend/models/media.py |
| rgb_color.dfy | RgbColor | backend/gen_v/models/media.py |
| asset_models.dfy | AssetModels | backend/models/asset_models.py |
| vertexai_models.dfy | VertexAIModels | backend/models/vertexai_models.py |
| dates.dfy | Dates | backend/gen_v/utils/dates.py |
| config.dfy | Config | backend/gen_v/config.py |
| video_editing.dfy | VideoEditing | backend/components/video_editing.py |
| image_utils.dfy | ImageUtils | backend/gen_v/utils/image.py |
| asset_utils.dfy | AssetUtils | backend/components/asset_utils.py |
| api_mocks.dfy | ApiMocks | backend/mocks/api_mocks.py |
| asset_mocks.dfy | AssetMocks | backend/mocks/asset_mocks.py |

Three modules are shared:

- `Wrappers` holds `Option` and `Result`. Every error a validator raises is a
  `Failure` carrying a named error.
- `Strings` holds decimal formatting and parsing of naturals, ASCII
  lower-casing, prefixes and suffixes, and `rfind`.
- `PyValues` holds the Python values that a pydantic `mode='before'` validator
  sees in its raw input dictionary.

The pure source files are datatypes, functions and lemmas. Two parts of the
source change state in place, and these are classes with `modifies` clauses:

- `ImageMetadataResult.generate_signed_url` assigns a field, so it is the
  class `AssetModels.ImageMetadataResult`.
- The asset upload writes to two stores one step after the other, so it is
  the class `AssetUtils.AssetStore`.

The two loops of the source are methods with loop invariants:

- the margin check of `TextInput`;
- the sample list of the mock status response.

## Model

| member | source | states |
|---|---|---|
| MediaModels.EnsureTextOrFilename | backend/models/media.py:130-136 | The input passes exactly when `text` or `filename` is present and not `None`. On success the dictionary is returned unchanged. Otherwise the error is the missing-text error. |
| MediaModels.ValidateFontSizeForLabel | backend/models/media.py:138-148 | The input fails exactly when the raw `method` is the string `label` and `font_size` is absent or `None`. On success the input is returned unchanged. |
| MediaModels.ValidateSizeForCaption | backend/models/media.py:150-158 | The input fails exactly when the raw `method` is `caption` and `size` is absent or `None`. On success the input is returned unchanged. |
| MediaModels.ValidateBgColorLength | backend/models/media.py:160-170 | The input fails exactly when `transparent` is truthy and `bg_color` is a tuple whose length is not 4. A string or `None` colour passes, and so does a falsy or absent `transparent`. |
| MediaModels.ValidateTextInputModel | backend/models/media.py:130-170 | The four `before` model validators run in the reverse of their definition order, as pydantic v2 applies them. On success the input is returned unchanged. `TextInputModelValidation` states which inputs pass and which error is reported. |
| MediaModels.TextInputModelValidation | backend/models/media.py:130-170 | The four model validators together accept exactly the inputs that keep all four rules. They never rewrite the input. Any error they report names a rule the input breaks, and of the broken rules it is the one defined last. |
| MediaModels.ReportedErrorExample | backend/models/media.py:130-170 | A transparent `label` input with a three-entry colour and neither text nor font size breaks three rules, and the colour error is the one reported. |
| MediaModels.OmittedMethodSkipsMethodRules | backend/models/media.py:144-157 | When `method` is omitted, neither method-dependent rule fires, although `label` is the field's default. |
| MediaModels.ValidateMarginFormat | backend/models/media.py:172-198 | A margin is accepted unchanged exactly when it is a tuple of length 2 or 4 whose entries are `None` or non-negative numbers. A non-tuple gets one error and a wrong length another. Otherwise the first bad entry decides between the "not a number" and "negative" errors. |
| MediaModels.ValidateMethod | backend/models/media.py:200-206 | A method is accepted unchanged exactly when it is `label` or `caption`. |
| MediaModels.ValidateTextAlign | backend/models/media.py:208-216 | A text alignment is accepted unchanged exactly when it is `center`, `left` or `right`. |
| MediaModels.ValidateHorizontalAlign | backend/models/media.py:218-228 | A horizontal alignment is accepted unchanged exactly when it is `center`, `left` or `right`. |
| MediaModels.ValidateVerticalAlign | backend/models/media.py:230-238 | A vertical alignment is accepted unchanged exactly when it is `center`, `top` or `bottom`. |
| MediaModels.DefaultsAllowed | backend/models/media.py:200-238 | The field defaults `label`, `left`, `center` and `center` pass their own validators. |
| RgbColor.NewRGBColor | backend/gen_v/models/media.py:162-164 | A colour is built exactly when each channel is an int in 0..255, and it then keeps the field bounds. A failure is a validation error naming exactly the failing fields. |
| RgbColor.FromTuple | backend/gen_v/models/media.py:179-187 | `from_tuple`: the shape check, then construction from entries 0, 1 and 2. `FromTupleShape`, `FromTupleAccepts` and `FromTupleBounds` state when it raises the `TypeError`, when it builds a colour, and that the colour keeps the channel bounds. |
| RgbColor.FromTupleShape | backend/gen_v/models/media.py:182-183 | The `TypeError` comes exactly from values that are not 3-tuples. A 3-tuple that is rejected gets the validation error, never the `TypeError`. |
| RgbColor.FromTupleAccepts | backend/gen_v/models/media.py:184-187 | A 3-tuple is accepted exactly when its three entries are ints in 0..255. The channels are then entries 0, 1 and 2 in order. |
| RgbColor.FromTupleBounds | backend/gen_v/models/media.py:162-187 | A tuple of three ints is accepted exactly when all three lie in 0..255, and both ends of the range are allowed. A rejected one gets the validation error, re-raised unchanged. |
| AssetModels.SplitExt | backend/models/asset_models.py:51 | POSIX `os.path.splitext`. `SplitExtRoundTrip`, `SplitExtShape`, `DirectoryDotsIgnored`, `NoDotNoExtension` and `OnlyLeadingDotsNoExtension` state that it loses nothing, what an extension looks like, and when there is none. |
| AssetModels.ImageUploadInput.GetFileExtension | backend/models/asset_models.py:56-64 | `get_file_extension`: the lower-cased extension of the file name. `FileExtensionShape` and `FileExtensionIgnoresCase` state its form and that it ignores case. |
| AssetModels.SplitExtRoundTrip | backend/models/asset_models.py:51 | The root and the extension that `splitext` returns concatenate back to the path. |
| AssetModels.SplitExtShape | backend/models/asset_models.py:63 | An extension is empty, or a single `.` followed by characters that are neither `.` nor `/`. |
| AssetModels.FileExtensionShape | backend/models/asset_models.py:56-64 | `get_file_extension` returns `''` or a `.`-led extension, with no upper-case letters. |
| AssetModels.DirectoryDotsIgnored | backend/models/asset_models.py:63 | Dots in directory components do not matter: the extension of `dir/base` is the extension of `base`. |
| AssetModels.FileExtensionIgnoresCase | backend/models/asset_models.py:63-64 | A name and its lower-cased form have the same lower-cased extension. |
| AssetModels.ValidateImageType | backend/models/asset_models.py:48-54 | An accepted file is returned unchanged. A rejected one gets the `Invalid image type` error. |
| AssetModels.ValidateImageTypeMatchesExtension | backend/models/asset_models.py:51-53 | The check accepts a file exactly when `get_file_extension` of the input is in the allow-list of backend/constants.py, so both use the same extension. |
| AssetModels.ValidateImageTypeIgnoresCase | backend/models/asset_models.py:51-53 | Acceptance does not change when the name is lower-cased, so `good.JpG` passes like `good.jpg`. A name with no extension is always rejected. |
| AssetModels.UpperCaseExtensionExample | backend/models/asset_models.py:63-64 | `image.JPG` has extension `.jpg`. |
| AssetModels.DottedDirectoryExample | backend/models/asset_models.py:63 | `folder.with.dots/image.png` has extension `.png`. |
| AssetModels.LeadingDotsExample | backend/models/asset_models.py:63 | Leading dots do not start an extension: `.hidden.jpg` and `...manydots.jpg` both have `.jpg`. |
| AssetModels.NoExtensionExample | backend/models/asset_models.py:63 | `''`, `image`, `no_extension` and `.bashrc` have no extension. |
| AssetModels.NoDotNoExtension | backend/models/asset_models.py:63 | Any name without a `.` has no extension. |
| AssetModels.OnlyLeadingDotsNoExtension | backend/models/asset_models.py:63 | When only dots precede the last `.` in the final path component, there is no extension. |
| AssetModels.ImageMetadataResult.FromDoc | backend/models/asset_models.py:86-95 | A result built from a stored record holds that record, and `signed_url` is `''` until it is signed. |
| AssetModels.ImageMetadataResult.constructor | backend/models/asset_models.py:86-95 | A result built with every field holds exactly those fields. |
| AssetModels.ImageMetadataResult.GenerateSignedUrl | backend/models/asset_models.py:97-109 | `signed_url` becomes the storage's answer for (`bucket_name`, `file_path`). No other field changes. |
| VertexAIModels.ValidateStorageUri | backend/models/vertexai_models.py:53-59 | A storage URI is accepted unchanged exactly when its first five characters are `gs://`. |
| VertexAIModels.ValidateSampleCount | backend/models/vertexai_models.py:61-67 | A sample count is accepted unchanged exactly when 1 <= n <= 4. |
| VertexAIModels.NewGenerateVideoRequest | backend/models/vertexai_models.py:45-67 | A request is built exactly when both fields pass. Otherwise the error list names exactly the failing fields. |
| VertexAIModels.DefaultRequestAccepted | backend/models/vertexai_models.py:48-50 | The defaults are region `us-central1`, model `veo-2.0-generate-exp` and 4 samples, and they are accepted. |
| VertexAIModels.SampleCountExamples | backend/models/vertexai_models.py:57-67 | Counts 1 and 4 pass and 0 and 5 fail. A `gs://` URI passes and an `https://` URI fails. |
| VertexAIModels.MimeRun | backend/models/vertexai_models.py:79 | The greedy run of `[\w/\-\.]` characters is maximal: every character in it belongs to the class, and the next one does not. |
| VertexAIModels.MatchDataUri | backend/models/vertexai_models.py:79-82 | The anchored match of `^data:(?P<mime_type>[\w/\-\.]+);base64`. `MimeTypeOfDataUri` shows it finds the type of every well-formed data URI, and `MimeTypeSound` that every type it returns is one. |
| VertexAIModels.GetImageMimeType | backend/models/vertexai_models.py:69-82 | A missing image has no MIME type. |
| VertexAIModels.MimeTypeOfDataUri | backend/models/vertexai_models.py:79-81 | For `data:` + m + `;base64` + anything, where m is a non-empty run of class characters, the result is m. |
| VertexAIModels.MimeTypeSound | backend/models/vertexai_models.py:79-81 | A returned type is a non-empty run of class characters without `;`, and the image starts with `data:`, that type and then `;base64`. |
| VertexAIModels.PngMimeTypeExample | backend/models/vertexai_models.py:79-81 | `data:image/png;base64,iVBORw0KGgo=` gives `image/png`. |
| VertexAIModels.MissingPrefixExample | backend/models/vertexai_models.py:79-82 | `invalid-b64` gives no MIME type. |
| Dates.IsoCalendar | backend/gen_v/utils/dates.py:30 | `date.isocalendar()[:2]`. `IsoCalendarCorrect` and `IsoWeekUnique` state that it gives the one ISO week holding the date. |
| Dates.FormatWeekLabel | backend/gen_v/utils/dates.py:31 | `f"week{week}-{year}"`. `FormatWeekLabelRoundTrip` states that the label reads back as the year and week, and `LabelShape` its unpadded form. |
| Dates.CurrentWeekYearStr | backend/gen_v/utils/dates.py:18-32 | `get_current_week_year_str`, with the clock as the `today` argument. `LabelOfGivenDate`, `LabelDeterminesIsoWeek` and `LabelShape` state that a given date is labelled by its own ISO week, that labels are equal exactly when ISO weeks are, and the label's form. |
| Dates.YearLength | backend/gen_v/utils/dates.py:30 | Consecutive January 1 ordinals differ by the length of the year. |
| Dates.YearLengthPy | backend/gen_v/utils/dates.py:30 | CPython's closed-form day count before a year grows by the year's length from one year to the next. |
| Dates.DaysBeforeYearClosedForm | backend/gen_v/utils/dates.py:30 | The year-by-year day count equals CPython's closed form for every year. |
| Dates.OrdinalInYear | backend/gen_v/utils/dates.py:30 | Every valid date lies between January 1 of its year and January 1 of the next. |
| Dates.Week1MondayNearFirstDay | backend/gen_v/utils/dates.py:30 | The Monday that starts ISO week 1 is a Monday within three days of January 1. |
| Dates.Week1MondayGap | backend/gen_v/utils/dates.py:30 | Consecutive week-1 Mondays are 52 or 53 weeks apart. |
| Dates.Week1MondayIncreasing | backend/gen_v/utils/dates.py:30 | Week-1 Mondays increase with the year. |
| Dates.IsoCalendarCorrect | backend/gen_v/utils/dates.py:30 | `isocalendar()` puts a date in the ISO week that holds it. The ISO year is the calendar year, the year before or the year after, and it is at least 1. |
| Dates.IsoCalendarAtCorrect | backend/gen_v/utils/dates.py:30 | `isocalendar()`'s case analysis: for every day of year `y`, the week it gives holds that day. |
| Dates.Week1MondaysAround | backend/gen_v/utils/dates.py:30 | Where the week-1 Mondays of the years `y - 1` to `y + 2` lie relative to year `y`. |
| Dates.IsoCalendarFromCorrect | backend/gen_v/utils/dates.py:30 | `isocalendar()`'s three branches (previous year, next year, this year), over the week-1 Mondays, each give a week that holds the day. |
| Dates.IsoWeekUnique | backend/gen_v/utils/dates.py:30 | A day lies in exactly one ISO week. |
| Dates.IsoWeekInRange | backend/gen_v/utils/dates.py:30 | Week numbers run from 1 to 53. |
| Dates.Week1HoldsJanuary4 | backend/gen_v/utils/dates.py:30 | January 4 is in week 1 of its own year, and week 1 holds the year's first Thursday. |
| Dates.SameWeekSameIsoCalendar | backend/gen_v/utils/dates.py:30-32 | All seven days from a Monday through the following Sunday get the same ISO year and week, and so the same label. |
| Dates.FormatWeekLabelRoundTrip | backend/gen_v/utils/dates.py:31 | The label `weekW-Y` reads back as (Y, W), so it loses nothing. |
| Dates.LabelDeterminesIsoWeek | backend/gen_v/utils/dates.py:29-32 | Two dates get the same label exactly when they have the same ISO year and week. |
| Dates.LabelShape | backend/gen_v/utils/dates.py:29-32 | The label is `week` + W + `-` + Y, with no padding, W in 1..53, and Y the calendar year or a neighbour. |
| Dates.LabelOfGivenDate | backend/gen_v/utils/dates.py:29-32 | A given date is labelled by its own ISO year and week, whatever today is. |
| Dates.KnownFirstDays | backend/gen_v/utils/dates.py:30 | January 1 of 2024, 2025 and 2026 have ordinals 738886, 739252 and 739617. |
| Dates.KnownWeek1Mondays | backend/gen_v/utils/dates.py:30 | Week 1 of 2024, 2025 and 2026 starts on ordinals 738886, 739250 and 739614. |
| Dates.IsoCalendarLastWeekOf2024 | backend/gen_v/utils/dates.py:30 | 2024-12-29 is in week 52 of 2024. |
| Dates.IsoCalendarFirstWeekOf2025 | backend/gen_v/utils/dates.py:30 | 2025-01-01 is in week 1 of 2025. |
| Dates.IsoCalendarMidApril2025 | backend/gen_v/utils/dates.py:30 | 2025-04-16 is in week 16 of 2025. |
| Dates.FormatLabel2024 | backend/gen_v/utils/dates.py:31 | Year 2024, week 52 formats as `week52-2024`. |
| Dates.FormatLabel2025 | backend/gen_v/utils/dates.py:31 | Year 2025 formats as `week1-2025` for week 1 and `week16-2025` for week 16. |
| Dates.TestLabelLastWeekOf2024 | backend/tests/utils/dates_test.py:20-31 | 2024-12-29 is labelled `week52-2024`. |
| Dates.TestLabelFirstWeekOf2025 | backend/tests/utils/dates_test.py:20-31 | 2025-01-01 is labelled `week1-2025`. |
| Dates.TestLabelMidApril2025 | backend/tests/utils/dates_test.py:20-31 | 2025-04-16 is labelled `week16-2025`. |
| Strings.NatToString | backend/gen_v/utils/dates.py:31 | A number formats as a non-empty run of decimal digits, with no leading zero except for 0 itself. |
| Strings.NatToStringRoundTrip | backend/gen_v/utils/dates.py:31 | The decimal text of a number parses back to that number. |
| Strings.NatToStringInjective | backend/mocks/api_mocks.py:53 | Two numbers have the same decimal text exactly when they are equal. |
| Strings.Lower | backend/models/asset_models.py:64 | Lower-casing keeps the length and maps every character through the ASCII lower-case mapping. |
| Strings.RFind | backend/models/asset_models.py:63 | `rfind` returns the last position holding the character, or -1 when there is none. |
| Config.DefaultSettings | backend/gen_v/config.py:51-85 | The default region is `us-central1` and the default model `veo-2.0-generate-001`. The prompt type is custom, the orientation landscape, and a request asks for 2 samples of 5 seconds. |
| Config.AppSettings.InputImagesBucketPath | backend/gen_v/config.py:87-91 | `input_images_bucket_path`. `InputImagesBucketPathInFolder` states that it lies in the folder and ends with `/input-images/`. |
| Config.AppSettings.VideoModelUri | backend/gen_v/config.py:93-100 | `video_model_uri`. `VideoModelUriShape` states its host, project, region and model name. |
| Config.AppSettings.PredictionEndpoint | backend/gen_v/config.py:102-105 | `prediction_endpoint`. `EndpointsExtendModelUri` and `PredictionEndpointNamesModel` state that it extends the model URI with `:predictLongRunning`. |
| Config.AppSettings.FetchEndpoint | backend/gen_v/config.py:107-110 | `fetch_endpoint`. `EndpointsExtendModelUri` states that it extends the model URI and differs from the prediction endpoint. |
| Config.AppSettings.VeoOutputGcsUriBase | backend/gen_v/config.py:112-118 | `veo_output_gcs_uri_base`. `OutputBaseIsStorageUri` states that it is a `gs://` URI under the bucket ending with `/output-videos/veo/`. |
| Config.AppSettings.SelectedPromptText | backend/gen_v/config.py:120-126 | `selected_prompt_text`. `SelectedPromptFollowsType` states which prompt each prompt type selects. |
| Config.AppSettings.AspectRatio | backend/gen_v/config.py:128-134 | `aspect_ratio`. `OrientationConsistent` states that it is `9:16` exactly for portrait. |
| Config.AppSettings.OutputFilePrefix | backend/gen_v/config.py:136-142 | `output_file_prefix`. `OrientationConsistent` states that it is `video-portrait` exactly for portrait. |
| Config.InputImagesBucketPathInFolder | backend/gen_v/config.py:87-91 | The input-image path is the folder name followed by `/input-images/`. |
| Config.EndpointsExtendModelUri | backend/gen_v/config.py:102-110 | The prediction and fetch endpoints both extend the model URI (with `:predictLongRunning` and `:fetchPredictOperation`). They differ from each other, and both are `https://` URLs. |
| Config.VideoModelUriShape | backend/gen_v/config.py:93-100 | The model URI starts with the regional `v1beta1` host, the project and the same region again, and it ends with `/models/` and the model name. |
| Config.PredictionEndpointNamesModel | backend/gen_v/config.py:102-105 | The prediction endpoint ends with `/models/`, the model name and `:predictLongRunning`. |
| Config.DefaultPredictionEndpoint | backend/gen_v/config.py:54-57 | With the defaults, the prediction endpoint is on the `us-central1` host, names the project and ends with the default model's `:predictLongRunning`. |
| Config.OutputBaseIsStorageUri | backend/gen_v/config.py:112-118 | The Veo output base passes the request's `gs://` check. It lies under `gs://` + bucket + `/` and ends with `/output-videos/veo/`. |
| Config.SelectedPromptFollowsType | backend/gen_v/config.py:120-126 | When the two prompts differ, the custom prompt is chosen exactly for `CUSTOM` and the Gemini prompt exactly for `GEMINI`. |
| Config.OrientationConsistent | backend/gen_v/config.py:128-142 | Portrait exactly when `9:16`, and exactly when the prefix is `video-portrait`. `16:9` goes with `video-landscape`. |
| Config.DefaultsLandscapeCustom | backend/gen_v/config.py:120-142 | The defaults give `16:9`, `video-landscape` and the custom prompt. |
| VideoEditing.CheckFileExists | backend/components/video_editing.py:22-37 | The check returns true exactly when the path exists. Otherwise it fails with `Video file not found: ` and the path. |
| VideoEditing.TruncDiv | backend/components/video_editing.py:52 | `int()` of a quotient truncates toward zero: it never rounds up for a non-negative numerator, and never down for a negative one. |
| VideoEditing.ScaledWidth | backend/components/video_editing.py:52 | `int(width * (desired_height / height))`. `RescaleImage` states the truncation bounds of the width it gives. |
| VideoEditing.RescaleImage | backend/components/video_editing.py:40-56 | A missing file and a zero height are errors, and any other failure is Pillow's refusal of a size below one pixel. A success has a height and a width of at least one. On success the height is the requested one and the mode is unchanged. The width is the proportional width truncated: `w * h <= width * desired < (w + 1) * h`. |
| VideoEditing.RescaleExactWhenDivisible | backend/components/video_editing.py:51-54 | When the height divides `width * desired_height`, the aspect ratio is kept exactly. |
| VideoEditing.RescaleSucceeds | backend/components/video_editing.py:50-55 | An existing image with a height is rescaled exactly when the target leaves at least one pixel each way. Otherwise the error is the invalid size. |
| VideoEditing.RescaleExample | backend/tests/components/video_editing_test.py:93-96 | A 200x100 image rescaled to height 200 is 400 wide. |
| ImageUtils.RescaleImageHeight | backend/gen_v/utils/image.py:20-36 | The result succeeds and fails exactly when the video-editing rescale does, with the same width, height and error. Its mode is `RGBA`. |
| ImageUtils.RescaleImageHeightDimensions | backend/gen_v/utils/image.py:30-35 | The height is the requested one, and the width is the truncated proportional width. |
| ImageUtils.RescaleImageHeightExample | backend/tests/utils/image_test.py:61-68 | A 200x100 image rescaled to height 200 is 400x200 in `RGBA`. |
| AssetUtils.AssetStore.constructor | backend/components/asset_utils.py:31 | A store holds the mock switch, the bucket and the two stores it is given. |
| AssetUtils.AssetStore.WriteBlob | backend/components/asset_utils.py:57-61 | The blob at (bucket, path) now holds the content. Nothing else changes. |
| AssetUtils.AssetStore.CreateDocument | backend/components/firestore_crud.py:49-52 | The record is stored under (collection, id), and the id written is returned. |
| AssetUtils.AssetStore.UploadImageAsset | backend/components/asset_utils.py:34-80 | The image id is returned. In mock mode nothing is written. Otherwise the content is stored at the blob path in the bucket and the record under the id in `images`. Nothing else changes. |
| AssetUtils.AssetStore.GetImageMetadataWithSignedUrl | backend/components/asset_utils.py:83-123 | In mock mode the mock's answer for the id is returned. Otherwise the result is `None` exactly when no record exists, and else a new result with the record's fields and the URL signed for its bucket and path. |
| AssetUtils.BlobFileName | backend/components/asset_utils.py:51 | `gcs_file_name`. `ImageRecordLocatesBlob` and `AcceptedUploadHasAllowedExtension` state that it starts with the image id and, for an accepted file, ends with an allowed extension. |
| AssetUtils.BlobPath | backend/components/asset_utils.py:52 | `gcs_file_path`. `ImageRecordLocatesBlob` states that it is the file name under `images/`. |
| AssetUtils.FullGcsPath | backend/components/asset_utils.py:53-55 | `full_gcs_file_path`. `ImageRecordLocatesBlob` states that it is `gs://` + bucket + `/` + the blob path. |
| AssetUtils.ImageRecord | backend/components/asset_utils.py:63-72 | The `Image` record the upload stores. `ImageRecordLocatesBlob` states how its paths locate the blob and that its other fields are the input's. |
| AssetUtils.LookupIn | backend/components/asset_utils.py:103-123 | What a lookup returns for a mode and a set of records. `MockLookupIgnoresStore` and `LookupFindsStoredRecord` state the mock and the stored-record cases. |
| AssetUtils.AssetStore.Lookup | backend/components/asset_utils.py:103-123 | A lookup in the store's current state. `GetImageMetadataWithSignedUrl` returns what it gives, and `UploadThenLookup` and `UploadKeepsOtherLookups` state how an upload changes it. |
| AssetUtils.ImageRecordLocatesBlob | backend/components/asset_utils.py:51-72 | The stored record's full path is `gs://` + bucket + `/` + file path. The file path is `images/` + file name, and the file name starts with the image id. The other fields are the input's, unchanged. |
| AssetUtils.AcceptedUploadHasAllowedExtension | backend/components/asset_utils.py:51-52 | A file that passes the image-type check is stored under a name ending in an allowed extension. |
| AssetUtils.UploadThenLookup | backend/components/asset_utils.py:57-123 | After an upload, a lookup of the same id finds the stored record. The blob it names holds the uploaded content, and its URL is signed for that blob. |
| AssetUtils.UploadKeepsOtherLookups | backend/components/asset_utils.py:73-78 | An upload does not change the lookup of any other id. |
| AssetUtils.MockLookupIgnoresStore | backend/components/asset_utils.py:103-105 | In mock mode the stores are never read. The answer depends on the id alone, and it is `None` exactly for `not_found`. |
| AssetUtils.LookupFindsStoredRecord | backend/components/asset_utils.py:110-121 | Outside mock mode a lookup fails exactly when no record is stored. Otherwise it carries the stored record unchanged. |
| ApiMocks.MockVeoGenerateVideoResponse | backend/mocks/api_mocks.py:24-31 | The operation name is always `projects/PROJECT_ID/operations/OPERATION_ID`. |
| ApiMocks.MockVeoOperationStatusResponse | backend/mocks/api_mocks.py:34-64 | The response is named after the request and is done. It has one sample per index of `range(num_of_videos)`, in index order, and sample i is the `video/mp4` file `sample_i.mp4` under `veo/generated/` in the bucket. |
| ApiMocks.SampleUri | backend/mocks/api_mocks.py:53 | The URI of sample i. `SampleUrisDistinct` and `SampleUriInBucket` state that distinct indices give distinct URIs, all in the bucket and ending with `.mp4`. |
| ApiMocks.SampleUrisDistinct | backend/mocks/api_mocks.py:51-53 | Two sample URIs are equal exactly when their indices are, so no two samples share a URI. |
| ApiMocks.SampleUriInBucket | backend/mocks/api_mocks.py:53 | Every sample URI starts with `gs://` + bucket + `/` and ends with `.mp4`. |
| ApiMocks.DefaultStatusResponseExample | backend/mocks/api_mocks.py:36-37 | With the defaults there are four samples, the first being `sample_0.mp4` in `mock-storage-bucket-name`. |
| AssetMocks.MockImageMetadata | backend/mocks/asset_mocks.py:24-51 | The id `not_found` gives `None` and every other id gives a record. A record's signed URL is `/assets/gen-v-logo.png`. |
| AssetMocks.MockGetImageMetadataWithSignedUrl | backend/mocks/asset_mocks.py:36-51 | The result is `None` exactly for `not_found`. Otherwise it is a new result object holding the fixed record. |
| AssetMocks.MockIndependentOfId | backend/mocks/asset_mocks.py:39-50 | Every id other than `not_found` gets the same record. |
| AssetMocks.MockRecordConsistent | backend/mocks/asset_mocks.py:40-44 | The record's full path is `gs://` + bucket + `/` + file path, and its file path is its file name under `images/`. |

## Left out

- Network, cloud SDKs and web endpoints are not modelled. This covers the video-generation client, polling, thread pools, the FastAPI routers and the Firestore and GCS wrappers. The storage and the document database appear only as the two maps of `AssetUtils.AssetStore`, and the URL signer is a function parameter.
- Pixel work is not modelled: Pillow's `open`, `resize` and `convert`, and all moviepy compositing. An image is only its width, height and mode.
- The clock and randomness are parameters. `date.today()` is the `today` argument of `Dates.CurrentWeekYearStr`. `datetime.now`, the default of `date_created`, is the `now` argument of the upload. The random default of `image_id` is not modelled: the id is always given.
- The functions whose bodies are not part of the source are not modelled. These are `calculate_audio_duration`, `load_audio_clips`, `add_image_clips_to_video`, `concatenate_video_clips`, `merge_arrays`, `get_opposite_side`, `hex_to_rgb`, `rescale_image_width`, `rescale_image_to_fit`, `get_file_name_from_gcs_url`, `parse_gcs_uri`, `RGBColor.to_tuple` and `RGBColor.distance_to`.
- backend/models/api_models.py is not part of this model. The Veo response records in `ApiMocks` carry only the fields the mocks set.
- `ImageInput`, `VideoInput` and `AudioInput` are plain records with no validators, and nothing is proved about them. Their float durations and start times are data.
- Settings are read from the environment. Here they are fields of the `AppSettings` value and of the `AssetStore` object.
- backend/settings.py defines no `firestore_db_name`, although the upload and the lookup read it (backend/components/asset_utils.py:77,114). Outside mock mode those reads would fail. The model ignores the database name and lets both operations proceed.
- `ValidateImageType` is modelled as a standalone check, not as an invariant of `ImageUploadInput`. The `@classmethod` decorator placed above `@pydantic.field_validator` (backend/models/asset_models.py:48-49) leaves it unregistered, so construction does not enforce it. `UploadImageAsset` does not re-check the extension, because the code does not. `AcceptedUploadHasAllowedExtension` states what holds when a caller does check first.
- `RescaleImage`: the code takes `int()` of a float product, which truncates, and the model follows the code. The scale factor is computed exactly, not in binary floating point. Where the exact product lies at or very near an integer, the float product can land on the other side of it, and the source's width can then differ from the model's by one.
- `RescaleImage`: for a zero height or a target below one pixel, Pillow's and Python's own error messages are not reproduced. These are the named errors `ZeroDivision` and `InvalidSize`, and a missing file is the `FileNotFoundError` text of `open`.
- `CheckFileExists` reports `Video file not found: ` and the path, as the code does. The repository's test at backend/tests/components/video_editing_test.py:83-86 expects `Media file not found`.
- `VideoModelUriShape` states the `/v1beta1/` path of the code (backend/gen_v/config.py:97). The repository's config test expects `/v1/`, and it also tests `images_uri`, `intros_outros_uri` and `audio_uri` fields that the settings do not define.
- `IsMimeChar` reads the regular expression's `\w` as ASCII letters, digits and `_`. Python's `\w` on `str` also matches other Unicode letters and digits.
- `Lower`: Python's `str.lower` on non-ASCII letters is not modelled. Only `A`-`Z` are lower-cased.
- `NewRGBColor`: pydantic's lax coercion of non-int field values is not modelled. Under it, `RGBColor(r=3.0, ...)`, `r="3"` or `r=True` would build a colour. Here a channel that is not an `int` is a validation error.
- `FromTupleAccepts`: pydantic's lax coercion of non-int entries is not modelled. Under it, `3.0`, `"3"` or `True` would be accepted as channel values. Here any entry that is not an `int` is a validation error.
- `ValidateTextInputModel` runs the four `before` model validators in the reverse of their definition order. That is the order pydantic v2 gives them, by wrapping each around the ones defined above it. Pydantic itself is not part of this model.
- `PyValues`: floats are mathematical reals. NaN and infinities are not modelled, so a `NaN` margin entry, which Python lets through, has no counterpart.
- `WriteBlob`: `write_to_gcs` (backend/components/gcs_storage.py:114-115) opens the blob with `blob.open('w')`, a text-mode writer, and the upload passes it the bytes read from the file. A text-mode writer accepts only `str`, so that write would raise `TypeError` and store nothing. The model stores the bytes as the upload intends.
- `UploadFile`: FastAPI's `UploadFile.filename` may be `None`, and `os.path.splitext(None)` then raises `TypeError` in `validate_image_type` and `get_file_extension` (backend/models/asset_models.py:51,63). Here a file name is always a string.
- The session-document update that the upload leaves as a to-do is not modelled, because it is not in the code.
- The dates of the repository's tests are stated for years given as offsets from 2000 (`y - 2000 == 24`), which is the same date.
