/** The two analysis endpoints of main.py: `/analyze` (raw upload, lines
    55-96) and `/analyze-base64` (lines 98-161). Decoding, colour conversion
    and inference are foreign and enter as parameters. */
module Pipeline {
  import opened Wrappers
  import opened Errors
  import opened DataUri
  import opened Detections
  import opened ModelCache

  newtype byte = x: int | 0 <= x < 256

  const RGB: string := "RGB"

  /** A decoded picture: its colour mode and its size. Pixel contents are
      not modelled. */
  datatype Image = Image(mode: string, width: nat, height: nat)

  /** `image.convert(mode)`: a picture of the same size in another mode. */
  function Convert(img: Image, mode: string): (r: Image)
    ensures r.mode == mode && r.width == img.width && r.height == img.height
  {
    img.(mode := mode)
  }

  /** `if image.mode != "RGB": image = image.convert("RGB")`. */
  function NormalizeMode(img: Image): (r: Image)
    ensures r.mode == RGB
    ensures r.width == img.width && r.height == img.height
    ensures img.mode == RGB ==> r == img
  {
    if img.mode != RGB then Convert(img, RGB) else img
  }

  /** Normalising twice is normalising once. */
  lemma NormalizeIdempotent(img: Image)
    ensures NormalizeMode(NormalizeMode(img)) == NormalizeMode(img)
  {
  }

  /** The detector's inference accepts every three-channel picture (and the
      handlers never give it anything else). */
  ghost predicate AcceptsRgb(infer: Image --> Option<seq<YoloResult>>)
  {
    forall img: Image :: img.mode == RGB ==> infer.requires(img)
  }

  /** The success body of both endpoints; `allClasses` is present only in the
      base64 endpoint's. */
  datatype Analysis = Analysis(predictions: seq<Prediction>, width: nat, height: nat,
                               allClasses: Option<seq<string>>)

  /** What reaches the client: the success body, or HTTP 500 with the
      failure as its detail. */
  datatype Response = Ok(body: Analysis) | ServerError(status: int, detail: Failure)

  /** The catch-all `except Exception as e: raise HTTPException(500, str(e))`. */
  function Respond(r: Result<Analysis, Failure>): (resp: Response)
    ensures resp.Ok? <==> r.Success?
    ensures r.Success? ==> resp.body == r.value
    ensures r.Failure? ==> resp == ServerError(500, r.error)
  {
    match r
    case Success(a) => Ok(a)
    case Failure(e) => ServerError(500, e)
  }

  /** A decoded and normalised picture with the detector's results on it. */
  datatype Inference = Inference(image: Image, results: seq<YoloResult>)

  /** Decode, normalise to RGB, obtain the detector, infer — the steps the
      two endpoints share. `modelReady` is whether `get_model()` returns. */
  function Infer(bytes: seq<byte>, openImage: seq<byte> -> Option<Image>, modelReady: bool,
                 infer: Image --> Option<seq<YoloResult>>): (r: Result<Inference, Failure>)
    requires AcceptsRgb(infer)
    ensures openImage(bytes).None? ==> r == Failure(UnreadableImage)
    ensures openImage(bytes).Some? && !modelReady ==> r == Failure(ModelUnavailable)
    ensures r.Success? ==> openImage(bytes).Some? && modelReady
    ensures r.Success? ==> r.value.image.mode == RGB
    ensures r.Success? ==> r.value.image.width == openImage(bytes).value.width &&
                           r.value.image.height == openImage(bytes).value.height
    ensures openImage(bytes).Some? && modelReady ==>
      (r.Failure? <==> infer(NormalizeMode(openImage(bytes).value)).None?) &&
      (r.Failure? ==> r.error == InferenceFailed)
    ensures r.Success? ==> r.value.image == NormalizeMode(openImage(bytes).value) &&
                           infer(r.value.image) == Some(r.value.results)
  {
    match openImage(bytes)
    case None => Failure(UnreadableImage)
    case Some(img) =>
      var image := NormalizeMode(img);
      if !modelReady then Failure(ModelUnavailable)
      else match infer(image)
        case None => Failure(InferenceFailed)
        case Some(rs) => Success(Inference(image, rs))
  }

  /** A normalised picture, the detector's results on it and the
      predictions built from them. */
  datatype DetectOutcome = DetectOutcome(image: Image, results: seq<YoloResult>, predictions: seq<Prediction>)

  /** The part both endpoints share: infer, then build the predictions. */
  function Detect(bytes: seq<byte>, openImage: seq<byte> -> Option<Image>, modelReady: bool,
                  infer: Image --> Option<seq<YoloResult>>): (r: Result<DetectOutcome, Failure>)
    requires AcceptsRgb(infer)
    ensures r.Success? ==> Infer(bytes, openImage, modelReady, infer).Success?
    ensures r.Success? ==> Predictions(r.value.results) == Success(r.value.predictions)
    ensures r.Success? ==> r.value.image.mode == RGB
    ensures r.Success? ==> r.value.image == Infer(bytes, openImage, modelReady, infer).value.image &&
                           r.value.results == Infer(bytes, openImage, modelReady, infer).value.results
    ensures Infer(bytes, openImage, modelReady, infer).Failure? ==>
      r == Failure(Infer(bytes, openImage, modelReady, infer).error)
    ensures Infer(bytes, openImage, modelReady, infer).Success? ==>
      var rs := Infer(bytes, openImage, modelReady, infer).value.results;
      (r.Success? <==> Predictions(rs).Success?) && (r.Failure? ==> r.error == Predictions(rs).error)
  {
    match Infer(bytes, openImage, modelReady, infer)
    case Failure(e) => Failure(e)
    case Success(inf) =>
      match Predictions(inf.results)
      case Failure(e) => Failure(e)
      case Success(ps) => Success(DetectOutcome(inf.image, inf.results, ps))
  }

  /** The outcome of `/analyze` on the uploaded bytes. */
  function UploadOutcome(contents: seq<byte>, openImage: seq<byte> -> Option<Image>, modelReady: bool,
                         infer: Image --> Option<seq<YoloResult>>): (r: Result<Analysis, Failure>)
    requires AcceptsRgb(infer)
    ensures r.Success? <==> Detect(contents, openImage, modelReady, infer).Success?
    ensures r.Success? ==>
      (r.value.allClasses.None? && r.value.predictions == Detect(contents, openImage, modelReady, infer).value.predictions)
    ensures r.Failure? ==> r.error == Detect(contents, openImage, modelReady, infer).error
  {
    match Detect(contents, openImage, modelReady, infer)
    case Failure(e) => Failure(e)
    case Success(d) => Success(Analysis(d.predictions, d.image.width, d.image.height, None))
  }

  /** `data.get("image", "")`. */
  function ImageField(body: map<string, string>): (s: string)
    ensures "image" !in body ==> s == [] && StripPrefix(s) == []
    ensures "image" in body ==> s == body["image"]
  {
    if "image" in body then body["image"] else ""
  }

  /** The outcome of `/analyze-base64` on the request body. */
  function Base64Outcome(body: map<string, string>, b64decode: string -> Option<seq<byte>>,
                         openImage: seq<byte> -> Option<Image>, modelReady: bool,
                         infer: Image --> Option<seq<YoloResult>>): (r: Result<Analysis, Failure>)
    requires AcceptsRgb(infer)
    ensures b64decode(StripPrefix(ImageField(body))).None? ==> r == Failure(MalformedBase64)
    ensures r.Success? ==> r.value.allClasses.Some? && b64decode(StripPrefix(ImageField(body))).Some?
  {
    match b64decode(StripPrefix(ImageField(body)))
    case None => Failure(MalformedBase64)
    case Some(bytes) =>
      match Detect(bytes, openImage, modelReady, infer)
      case Failure(e) => Failure(e)
      case Success(d) =>
        Success(Analysis(d.predictions, d.image.width, d.image.height, Some(AllClasses(d.results))))
  }

  /** Once the payload decodes to `bytes`, the base64 endpoint answers as the
      upload endpoint does on `bytes` (same failure, same predictions, same
      size), and adds `all_classes`. */
  lemma Base64AgreesWithUpload(body: map<string, string>, b64decode: string -> Option<seq<byte>>,
                               openImage: seq<byte> -> Option<Image>, modelReady: bool,
                               infer: Image --> Option<seq<YoloResult>>, bytes: seq<byte>)
    requires AcceptsRgb(infer)
    requires b64decode(StripPrefix(ImageField(body))) == Some(bytes)
    ensures var b, u := Base64Outcome(body, b64decode, openImage, modelReady, infer),
                        UploadOutcome(bytes, openImage, modelReady, infer);
      && (b.Success? <==> u.Success?)
      && (b.Failure? ==> b.error == u.error)
      && (b.Success? ==> b.value == u.value.(allClasses := b.value.allClasses) && b.value.allClasses.Some?)
  {
  }

  /** A data URI `data:<mime>;base64,<payload>` gives the same predictions as
      uploading the bytes its payload decodes to. */
  lemma DataUriAgreesWithUpload(header: string, payload: string, b64decode: string -> Option<seq<byte>>,
                                openImage: seq<byte> -> Option<Image>, modelReady: bool,
                                infer: Image --> Option<seq<YoloResult>>, bytes: seq<byte>)
    requires AcceptsRgb(infer)
    requires ',' !in header && ',' !in payload
    requires b64decode(payload) == Some(bytes)
    ensures var b, u := Base64Outcome(map["image" := header + [','] + payload], b64decode, openImage, modelReady, infer),
                        UploadOutcome(bytes, openImage, modelReady, infer);
      && (b.Success? <==> u.Success?)
      && (b.Success? ==> b.value.predictions == u.value.predictions)
  {
    StripDataUri(header, payload, []);
    assert header + [','] + payload + [] == header + [','] + payload;
    assert ImageField(map["image" := header + [','] + payload]) == header + [','] + payload;
    Base64AgreesWithUpload(map["image" := header + [','] + payload], b64decode, openImage, modelReady, infer, bytes);
  }

  /** Text that does not decode as base64 is a failure, never an empty success. */
  lemma MalformedBase64Fails(body: map<string, string>, b64decode: string -> Option<seq<byte>>,
                             openImage: seq<byte> -> Option<Image>, modelReady: bool,
                             infer: Image --> Option<seq<YoloResult>>)
    requires AcceptsRgb(infer)
    requires b64decode(StripPrefix(ImageField(body))).None?
    ensures Respond(Base64Outcome(body, b64decode, openImage, modelReady, infer)) == ServerError(500, MalformedBase64)
  {
  }

  /** A picture with no detected box is a success with no predictions. */
  lemma NoDetectionsSucceeds(contents: seq<byte>, openImage: seq<byte> -> Option<Image>,
                             infer: Image --> Option<seq<YoloResult>>)
    requires AcceptsRgb(infer)
    requires Infer(contents, openImage, true, infer).Success?
    requires TotalBoxes(Infer(contents, openImage, true, infer).value.results) == 0
    ensures var inf := Infer(contents, openImage, true, infer).value;
      UploadOutcome(contents, openImage, true, infer) == Success(Analysis([], inf.image.width, inf.image.height, None))
  {
    NoBoxesNoPredictions(Infer(contents, openImage, true, infer).value.results);
  }

  /** The reported size is the decoded picture's: conversion keeps it. */
  lemma ReportedSize(contents: seq<byte>, openImage: seq<byte> -> Option<Image>, modelReady: bool,
                     infer: Image --> Option<seq<YoloResult>>)
    requires AcceptsRgb(infer)
    requires UploadOutcome(contents, openImage, modelReady, infer).Success?
    ensures openImage(contents).Some?
    ensures var a := UploadOutcome(contents, openImage, modelReady, infer).value;
      a.width == openImage(contents).value.width && a.height == openImage(contents).value.height
  {
  }

  /** `all_classes` of a successful base64 request is the whole vocabulary of
      the last result group's table, and empty when there was no group. */
  lemma Base64AllClasses(body: map<string, string>, b64decode: string -> Option<seq<byte>>,
                         openImage: seq<byte> -> Option<Image>, modelReady: bool,
                         infer: Image --> Option<seq<YoloResult>>, name: string)
    requires AcceptsRgb(infer)
    requires Base64Outcome(body, b64decode, openImage, modelReady, infer).Success?
    ensures var bytes := b64decode(StripPrefix(ImageField(body))).value;
      var rs := Infer(bytes, openImage, modelReady, infer).value.results;
      var classes := Base64Outcome(body, b64decode, openImage, modelReady, infer).value.allClasses;
      && classes == Some(AllClasses(rs))
      && (rs == [] ==> classes == Some([]))
      && (rs != [] && UniqueKeys(rs[|rs| - 1].names) ==>
            (name in classes.value <==> Names(rs[|rs| - 1].names, name)))
  {
    var bytes := b64decode(StripPrefix(ImageField(body))).value;
    var rs := Infer(bytes, openImage, modelReady, infer).value.results;
    if rs != [] && UniqueKeys(rs[|rs| - 1].names) {
      AllClassesVocabulary(rs, name);
    }
  }

  /** Lines 61-87 (and 114-143) of the handlers: decode, normalise the
      colour mode, obtain the detector, infer and build the predictions. */
  method DetectImage(handle: ModelHandle, bytes: seq<byte>, openImage: seq<byte> -> Option<Image>,
                     infer: Image --> Option<seq<YoloResult>>, loadable: bool) returns (r: Result<DetectOutcome, Failure>)
    requires handle.Valid() && AcceptsRgb(infer)
    modifies handle
    ensures handle.Valid()
    ensures r == Detect(bytes, openImage, old(handle.model) != null || loadable, infer)
    ensures old(handle.model) != null ==> handle.model == old(handle.model)
    ensures old(handle.model) == null ==>
      (handle.model != null <==> openImage(bytes).Some? && loadable)
    ensures r.Success? ==> handle.model != null
  {
    var picture := openImage(bytes);
    if picture.None? {
      return Failure(UnreadableImage);
    }
    var image := picture.value;
    if image.mode != RGB {
      image := Convert(image, RGB);
    }
    var detector := handle.Get(loadable);
    if detector.Failure? {
      return Failure(detector.error);
    }
    var results := infer(image);
    if results.None? {
      return Failure(InferenceFailed);
    }
    var predictions := BuildPredictions(results.value);
    if predictions.Failure? {
      return Failure(predictions.error);
    }
    r := Success(DetectOutcome(image, results.value, predictions.value));
  }

  /** `analyze_image`: the `/analyze` handler. `loadable` is whether loading
      the weights would succeed should the slot be empty. */
  method AnalyzeImage(handle: ModelHandle, contents: seq<byte>, openImage: seq<byte> -> Option<Image>,
                      infer: Image --> Option<seq<YoloResult>>, loadable: bool) returns (resp: Response)
    requires handle.Valid() && AcceptsRgb(infer)
    modifies handle
    ensures handle.Valid()
    ensures resp == Respond(UploadOutcome(contents, openImage, old(handle.model) != null || loadable, infer))
    ensures old(handle.model) != null ==> handle.model == old(handle.model)
    ensures old(handle.model) == null ==>
      (handle.model != null <==> openImage(contents).Some? && loadable)
    ensures resp.Ok? ==> handle.model != null
  {
    var detection := DetectImage(handle, contents, openImage, infer, loadable);
    if detection.Failure? {
      return ServerError(500, detection.error);
    }
    var d := detection.value;
    resp := Ok(Analysis(d.predictions, d.image.width, d.image.height, None));
  }

  /** `analyze_base64`: the `/analyze-base64` handler. */
  method AnalyzeBase64(handle: ModelHandle, body: map<string, string>, b64decode: string -> Option<seq<byte>>,
                       openImage: seq<byte> -> Option<Image>, infer: Image --> Option<seq<YoloResult>>,
                       loadable: bool) returns (resp: Response)
    requires handle.Valid() && AcceptsRgb(infer)
    modifies handle
    ensures handle.Valid()
    ensures resp == Respond(Base64Outcome(body, b64decode, openImage, old(handle.model) != null || loadable, infer))
    ensures old(handle.model) != null ==> handle.model == old(handle.model)
    ensures old(handle.model) == null ==>
      (handle.model != null <==>
         (b64decode(StripPrefix(ImageField(body))).Some? &&
          openImage(b64decode(StripPrefix(ImageField(body))).value).Some? && loadable))
    ensures resp.Ok? ==> handle.model != null
  {
    var encoded := ImageField(body);
    if ',' in encoded {
      encoded := Split(encoded, ',')[1];
    }
    var decoded := b64decode(encoded);
    if decoded.None? {
      return ServerError(500, MalformedBase64);
    }
    var detection := DetectImage(handle, decoded.value, openImage, infer, loadable);
    if detection.Failure? {
      return ServerError(500, detection.error);
    }
    var d := detection.value;
    var allClasses := if |d.results| > 0 then ClassNames(d.results[|d.results| - 1].names) else [];
    resp := Ok(Analysis(d.predictions, d.image.width, d.image.height, Some(allClasses)));
  }
}
