# AgriScan detection service — Dafny model

A model of the request pipeline of the AgriScan tomato-leaf disease
detection service (`main.py`): the lazily loaded detector handle
(`get_model`), the data-URI prefix strip of the base64 endpoint, the RGB
normalisation of decoded pictures, the loop that turns detector output into
the response's `predictions` list, the `all_classes` expression, and the
catch-all mapping of every failure to an HTTP 500 reply.

Modules:

- `Wrappers`, `Errors` (`wrappers.dfy`): `Option`, `Result`, and the
  `Failure` kinds a request can run into.
- `DataUri` (`data_uri.dfy`): Python's `str.split(",")`, its inverse
  `Join`, and the prefix strip `split(",")[1]`.
- `Detections` (`detections.dfy`): label tables, boxes, result groups, the
  emission order of boxes (`Emitted`), the specification `Predictions`, the
  nested loop `BuildPredictions` proved against it, and `AllClasses`.
- `ModelCache` (`model_cache.dfy`): the module-level model slot as a class
  `ModelHandle` with a nullable `model` field and a ghost count of
  constructions; `Get` is `get_model`.
- `Pipeline` (`pipeline.dfy`): pictures and their colour mode, the
  specifications `UploadOutcome` and `Base64Outcome` of the two endpoints,
  the two handlers `AnalyzeImage` and `AnalyzeBase64` as methods proved
  against them, and the lemmas that relate the endpoints.

Foreign parts enter as parameters: `openImage` (PIL's `Image.open`, a
function that may fail), `b64decode` (Python's `base64.b64decode`, a
function that may fail), `infer` (the detector's prediction call, a partial
function that accepts every RGB picture and may fail), and `loadable`
(whether constructing the detector from its weights file succeeds). The
detector's label table (`result.names`) is a list of `(index, name)`
entries in the dictionary's insertion order, because `all_classes` is
`list(names.values())`, an ordered list; a lookup finds the first entry
with the index, and `UniqueKeys` states the dictionary's one-entry-per-key
property where a lemma needs it.

Where the service's stated design intent and its code differ, the model
follows the code:

- The prefix strip keeps the segment between the first and the second
  comma (`split(",")[1]`), not everything after the first comma.
- `all_classes` is the label table of the *last* result group (the loop
  variable outlives the loop), not a separately obtained model vocabulary.
- A construction failure of the detector is not cached: the exception
  fires before the assignment, so the slot stays empty and the next call
  tries again (`ModelHandle.Get`).

## Model

| member | source | states |
|---|---|---|
| `ModelCache.Detector.constructor` | main.py:29 | the object `YOLO(MODEL_PATH)` builds, identified by the weights file it was built from |
| `ModelCache.ModelHandle.constructor` | main.py:23-24 | the process starts with an empty slot and no detector built |
| `ModelCache.ModelHandle.Get` | main.py:26-30 | an empty slot is filled with a fresh detector for the bundled weights and that detector is returned; a full slot returns its detector unchanged without building; a failed construction leaves the slot empty; at most one detector is ever built |
| `ModelCache.GetTwice` | main.py:26-30 | a second call returns the very detector the first one returned, and the construction count stays at most one |
| `DataUri.Split` | main.py:107 | `str.split(sep)`: at least one piece, at least two when the separator occurs, no piece contains the separator |
| `DataUri.SplitJoin` | main.py:107 | joining the pieces with the separator gives the original string back |
| `DataUri.StripPrefix` | main.py:106-107 | a comma-free string is returned unchanged; a string with a comma yields a strictly shorter comma-free string |
| `DataUri.StripDataUri` | main.py:105-107 | `header,payload` (both comma-free) yields the payload, and anything from a second comma on is dropped |
| `Detections.Lookup` | main.py:78 | a found name is stored under the index in the table; nothing is found exactly when no entry has the index |
| `Detections.LookupEntry` | main.py:78 | in a dictionary-like table every entry is what a lookup of its key finds |
| `Detections.ClassNames` | main.py:148 | `list(names.values())`: one name per table entry, in table order; its contract states only the length, and what the names are is stated by `ClassNamesCover` |
| `Detections.ClassNamesCover` | main.py:148 | `list(names.values())` holds exactly the names some class index looks up to |
| `Detections.ToBBox` | main.py:81-86 | the box is four numbers whose first two are the top-left corner and whose sums with the last two give the bottom-right corner; width and height are non-negative when the corners are ordered |
| `Detections.CornersOfBBox` | main.py:86 | the response box gives the detector's corners back; this is `ToBBox`'s corner-sum clause restated as an inverse function `Corners` |
| `Detections.Tagged` | main.py:74-75 | a result whose boxes are absent contributes nothing; otherwise one entry per box, in order, each tagged with that result's own table |
| `Detections.Emitted` | main.py:73-75 | the boxes in the order the nested loop visits them; it carries no contract of its own, and `EmittedLength`, `EmittedAppend`, `EmittedMember` and `EmittedAt` state its properties |
| `Detections.TotalBoxes` | main.py:73-74 | the number of boxes over results whose boxes are present; it carries no contract of its own and serves as the count in `EmittedLength` and `PredictionsCount` |
| `Detections.EmittedLength` | main.py:73-75 | emission visits every box of every present result exactly once |
| `Detections.EmittedAppend` | main.py:73 | the emission of concatenated result lists is the concatenation of their emissions |
| `Detections.EmittedMember` | main.py:73-78 | an emitted entry is exactly some box of some result, tagged with that result's own label table |
| `Detections.EmittedAt` | main.py:73-75 | box `j` of result `i` is emitted at position `TotalBoxes(rs[..i]) + j` (results in order, boxes in order) |
| `Detections.ToPrediction` | main.py:76-87 | one box fails exactly when its class index is missing from its table, with that index as the failure |
| `Detections.ConvertAll` | main.py:75-87 | converting boxes one by one, the first unknown class failing the whole list; it carries no contract of its own, and `ConvertAllAppend`, `ConvertAllSuccess` and `ConvertAllFailure` state its properties |
| `Detections.ConvertAllAppend` | main.py:83 | converting concatenated box lists is converting each in turn, the first failure winning |
| `Detections.ConvertAllSuccess` | main.py:75-87 | a successful conversion has one prediction per box, each the box's own conversion, in order |
| `Detections.ConvertAllFailure` | main.py:75-78 | a conversion fails exactly when some box fails, and reports the first failing box |
| `Detections.Predictions` | main.py:71-87 | the `predictions` list as a function of the inference results; it carries no contract of its own, and `PredictionsCount`, `PredictionAt`, `PredictionsFailure`, `PredictionsFirstFailure` and `BuildPredictions` state its properties |
| `Detections.PredictionsCount` | main.py:73-75 | a successful mapping has exactly as many predictions as boxes across present results: nothing is filtered out |
| `Detections.NoBoxesNoPredictions` | main.py:73-74 | results whose boxes are absent or empty give an empty list, not an error |
| `Detections.PredictionAt` | main.py:73-87 | the prediction at position `TotalBoxes(rs[..i]) + j` carries the name of box `j`'s class in result `i`'s own table, its confidence, and `[x1, y1, x2-x1, y2-y1]` |
| `Detections.PredictionsFailure` | main.py:76-78 | the mapping fails exactly when some box's class index is missing from its own result's table |
| `Detections.PredictionsFirstFailure` | main.py:73-78 | a failing mapping reports the first unknown class index in emission order |
| `Detections.AppendBoxes` | main.py:75-87 | the inner loop extends the list to the conversion of the results up to and including result `i`, or fails the whole mapping with the first unknown class |
| `Detections.BuildPredictions` | main.py:71-87 | the nested loop returns exactly `Predictions(results)`: the full list, or the first unknown-class failure with no partial list |
| `Detections.AllClasses` | main.py:148 | no results give an empty list |
| `Detections.AllClassesLast` | main.py:148 | only the last result's table decides `all_classes`, whatever came before |
| `Detections.AllClassesVocabulary` | main.py:148 | `all_classes` contains every name of the last result's table, detected or not, and nothing else |
| `Pipeline.Convert` | main.py:65 | conversion yields the requested mode and keeps the size |
| `Pipeline.NormalizeMode` | main.py:64-65 | the result is in RGB with the same size; an RGB picture is left untouched |
| `Pipeline.NormalizeIdempotent` | main.py:64-65 | normalising twice is normalising once |
| `Pipeline.Respond` | main.py:89-96 | a reply is a success exactly when the request succeeded, carrying its body; every failure becomes status 500 carrying that failure, with no partial body |
| `Pipeline.Infer` | main.py:61-69 | a decode failure is `UnreadableImage`; with the picture decoded, a model that cannot be loaded is `ModelUnavailable`; with the picture decoded and the model ready, it fails exactly when `infer` on the normalised picture fails, and then with `InferenceFailed`; a success holds the normalised decoded picture (RGB, same size) and exactly what `infer` returned on it |
| `Pipeline.Detect` | main.py:61-87 | a success holds `Infer`'s picture and results and exactly `Predictions` of those results; a failure of `Infer` is passed on unchanged; after a successful `Infer`, it succeeds exactly when `Predictions` of its results does, failing with the same error (a missing class index fails the request) |
| `Pipeline.UploadOutcome` | main.py:55-96 | `/analyze` succeeds exactly when detection succeeds, returns its predictions and no `all_classes`, and otherwise fails with detection's failure |
| `Pipeline.ImageField` | main.py:102 | `data.get("image", "")`: the field's value, or the empty string, which the prefix strip keeps as it is |
| `Pipeline.Base64Outcome` | main.py:98-161 | a payload that does not decode is `MalformedBase64`; a success decoded its payload and carries `all_classes` |
| `Pipeline.Base64AgreesWithUpload` | main.py:98-155 | once the payload decodes to some bytes, the base64 endpoint fails as the upload endpoint does on those bytes, and on success returns the same predictions and size plus `all_classes` |
| `Pipeline.DataUriAgreesWithUpload` | main.py:102-111 | a `data:...;base64,` request gives the same predictions as uploading the bytes its payload decodes to |
| `Pipeline.MalformedBase64Fails` | main.py:111 | text that does not decode as base64 yields a 500 reply, never an empty success |
| `Pipeline.NoDetectionsSucceeds` | main.py:71-93 | a picture with no detected box yields success with an empty prediction list and the picture's size |
| `Pipeline.ReportedSize` | main.py:89-93 | the reported size is the decoded picture's size |
| `Pipeline.Base64AllClasses` | main.py:148-155 | `all_classes` of a successful base64 request is the last result group's whole vocabulary, and empty with no result group |
| `Pipeline.DetectImage` | main.py:61-87 | one method for both copies of this code (main.py:61-87 and 114-143): it returns exactly `Detect(...)`; a full model slot stays as it is, and an empty one is filled exactly when decoding succeeded and the weights load, even if inference then fails |
| `Pipeline.AnalyzeImage` | main.py:55-96 | the upload handler replies exactly `Respond(UploadOutcome(...))`; inference only ever sees an RGB picture; a full model slot stays as it is, and an empty one is filled exactly when decoding succeeded and the weights load |
| `Pipeline.AnalyzeBase64` | main.py:98-161 | the base64 handler replies exactly `Respond(Base64Outcome(...))`; inference only ever sees an RGB picture; a full model slot stays as it is, and an empty one is filled exactly when the payload and then the picture decode and the weights load |

## Left out

- HTTP routing, the FastAPI decorators, the `/` and `/health` constant
  replies and the CORS middleware (main.py:11-20, 47-53): framework
  configuration with no logic.
- The uvicorn entry point (main.py:163-165): process start-up.
- Reading the upload (`await file.read()`) and all `print`/`traceback`
  logging: I/O. The upload's bytes and the request's JSON body are
  parameters.
- `Image.open` and `image.convert` internals: foreign library calls. Decoding
  is a parameter that may fail; conversion changes only the mode tag, and
  pixel contents are not modelled. A picture is only its mode and size, so
  the model's inference sees nothing but those: it cannot tell apart two
  pictures of the same mode and size with different detections.
- `base64.b64decode`: a foreign library call, taken as a parameter that may
  fail.
- Construction of the detector from its weights and the detector's
  inference: foreign. Whether construction succeeds is the parameter
  `loadable`; inference is the parameter `infer`, the same function for every
  detector because every detector is built from the same bundled weights.
- The path join that locates `best.pt` next to the source file
  (main.py:23): the weights are named by the constant `MODEL_FILE`.
- `int(box.cls[0])`, `float(box.conf[0])` and `box.xyxy[0].tolist()`:
  tensor access; a box is given directly by an integer class index, a real
  confidence and real corners. Floating-point rounding is not modelled.
- `DISEASE_LABELS` (main.py:33-45): it is never used by any handler.
- `str(e)` as the error text: a reply carries the `Failure` value itself.
- The JSON body is a map from strings to strings; a non-string `image`
  value is not modelled.
- Concurrent first calls of `get_model`: the source has no locking, and the
  model is sequential.
