/** The mapping from raw detector output to the response's `predictions`
    list (main.py:71-87, repeated at 128-143) and the `all_classes`
    expression of the base64 endpoint (main.py:148). */
module Detections {
  import opened Wrappers
  import opened Errors

  /** One entry of a detector's label table: class index to class name. */
  datatype Label = Label(index: int, name: string)

  /** A label table in the insertion order of the dictionary it models. */
  type LabelTable = seq<Label>

  /** A detected box: class index, confidence and corners (x1, y1, x2, y2). */
  datatype Box = Box(classId: int, confidence: real, x1: real, y1: real, x2: real, y2: real)

  /** One result group of an inference call: its boxes (possibly absent) and
      the label table it carries. */
  datatype YoloResult = YoloResult(boxes: Option<seq<Box>>, names: LabelTable)

  /** One entry of the response's `predictions` list. */
  datatype Prediction = Prediction(className: string, confidence: real, bbox: seq<real>)

  /** A box together with the label table of the result it came from. */
  datatype Detected = Detected(names: LabelTable, box: Box)

  /** A dictionary has each key at most once. */
  ghost predicate UniqueKeys(t: LabelTable)
  {
    forall a, b :: 0 <= a < b < |t| ==> t[a].index != t[b].index
  }

  /** `names[index]`: the name stored under `index`, or None (a KeyError). */
  function Lookup(t: LabelTable, index: int): (r: Option<string>)
    ensures r.Some? ==> exists k :: 0 <= k < |t| && t[k] == Label(index, r.value)
    ensures r.None? <==> forall k :: 0 <= k < |t| ==> t[k].index != index
  {
    if t == [] then None
    else if t[0].index == index then Some(t[0].name)
    else
      assert forall k :: 0 <= k < |t| - 1 ==> t[1..][k] == t[k + 1];
      Lookup(t[1..], index)
  }

  /** In a table with unique keys, each entry is what a lookup of its key finds. */
  lemma LookupEntry(t: LabelTable, k: nat)
    requires UniqueKeys(t) && k < |t|
    ensures Lookup(t, t[k].index) == Some(t[k].name)
  {
    // Lookup finds some entry with this key, and only entry k has it.
  }

  /** `name` is what a lookup of some class index finds in `t`. */
  ghost predicate Names(t: LabelTable, name: string)
  {
    exists index :: Lookup(t, index) == Some(name)
  }

  /** `list(names.values())`. */
  function ClassNames(t: LabelTable): (names: seq<string>)
    ensures |names| == |t|
  {
    seq(|t|, k requires 0 <= k < |t| => t[k].name)
  }

  /** The class names of a table are exactly the names its lookups can find. */
  lemma ClassNamesCover(t: LabelTable, name: string)
    requires UniqueKeys(t)
    ensures name in ClassNames(t) <==> Names(t, name)
  {
    if name in ClassNames(t) {
      var k :| 0 <= k < |t| && ClassNames(t)[k] == name;
      LookupEntry(t, k);
    }
    if exists index :: Lookup(t, index) == Some(name) {
      var index :| Lookup(t, index) == Some(name);
      var k :| 0 <= k < |t| && t[k] == Label(index, name);
      assert ClassNames(t)[k] == name;
    }
  }

  /** The response box `[x1, y1, x2 - x1, y2 - y1]`: top-left corner, width, height. */
  function ToBBox(b: Box): (bbox: seq<real>)
    ensures |bbox| == 4
    ensures bbox[0] == b.x1 && bbox[1] == b.y1
    ensures bbox[0] + bbox[2] == b.x2 && bbox[1] + bbox[3] == b.y2
    ensures b.x1 <= b.x2 ==> 0.0 <= bbox[2]
    ensures b.y1 <= b.y2 ==> 0.0 <= bbox[3]
  {
    [b.x1, b.y1, b.x2 - b.x1, b.y2 - b.y1]
  }

  /** The corners a response box stands for. */
  function Corners(bbox: seq<real>): (corners: (real, real, real, real))
    requires |bbox| == 4
  {
    (bbox[0], bbox[1], bbox[0] + bbox[2], bbox[1] + bbox[3])
  }

  /** The response box gives the detector's corners back. */
  lemma CornersOfBBox(b: Box)
    ensures Corners(ToBBox(b)) == (b.x1, b.y1, b.x2, b.y2)
  {
  }

  /** The boxes of one result, each tagged with that result's label table;
      a result whose boxes are absent or empty contributes nothing. */
  function Tagged(r: YoloResult): (ds: seq<Detected>)
    ensures r.boxes.None? ==> ds == []
    ensures r.boxes.Some? ==> |ds| == |r.boxes.value|
    ensures r.boxes.Some? ==> forall j :: 0 <= j < |ds| ==> ds[j] == Detected(r.names, r.boxes.value[j])
  {
    if r.boxes.Some? && |r.boxes.value| > 0 then
      var bs := r.boxes.value;
      seq(|bs|, j requires 0 <= j < |bs| => Detected(r.names, bs[j]))
    else []
  }

  /** All boxes in emission order: results in sequence order, then each
      result's boxes in order. */
  function Emitted(rs: seq<YoloResult>): seq<Detected>
  {
    if rs == [] then [] else Tagged(rs[0]) + Emitted(rs[1..])
  }

  /** Number of boxes over all results whose boxes are present. */
  function TotalBoxes(rs: seq<YoloResult>): nat
  {
    if rs == [] then 0
    else (if rs[0].boxes.Some? then |rs[0].boxes.value| else 0) + TotalBoxes(rs[1..])
  }

  /** Emission visits every box exactly once. */
  lemma {:induction false} EmittedLength(rs: seq<YoloResult>)
    ensures |Emitted(rs)| == TotalBoxes(rs)
  {
    if rs != [] {
      EmittedLength(rs[1..]);
    }
  }

  /** Emission of a concatenation is the concatenation of the emissions. */
  lemma {:induction false} EmittedAppend(a: seq<YoloResult>, b: seq<YoloResult>)
    ensures Emitted(a + b) == Emitted(a) + Emitted(b)
  {
    if a == [] {
      assert a + b == b;
    } else {
      assert (a + b)[0] == a[0];
      assert (a + b)[1..] == a[1..] + b;
      EmittedAppend(a[1..], b);
    }
  }

  /** The tagged boxes emitted are exactly the boxes of the results, each with
      the label table of its own result. */
  lemma {:induction false} EmittedMember(rs: seq<YoloResult>, d: Detected)
    ensures d in Emitted(rs) <==>
      exists i, j :: 0 <= i < |rs| && rs[i].boxes.Some? && 0 <= j < |rs[i].boxes.value| &&
        d == Detected(rs[i].names, rs[i].boxes.value[j])
  {
    if rs != [] {
      EmittedMember(rs[1..], d);
      if d in Emitted(rs) && d !in Tagged(rs[0]) {
        assert d in Emitted(rs[1..]);
        var i, j :| 0 <= i < |rs[1..]| && rs[1..][i].boxes.Some? && 0 <= j < |rs[1..][i].boxes.value| &&
          d == Detected(rs[1..][i].names, rs[1..][i].boxes.value[j]);
        assert rs[i + 1] == rs[1..][i];
      }
      if exists i, j :: 0 <= i < |rs| && rs[i].boxes.Some? && 0 <= j < |rs[i].boxes.value| &&
          d == Detected(rs[i].names, rs[i].boxes.value[j]) {
        var i, j :| 0 <= i < |rs| && rs[i].boxes.Some? && 0 <= j < |rs[i].boxes.value| &&
          d == Detected(rs[i].names, rs[i].boxes.value[j]);
        if i == 0 {
          assert Tagged(rs[0])[j] == d;
        } else {
          assert rs[1..][i - 1] == rs[i];
        }
      }
    }
  }

  /** The box of result `i` at position `j` is emitted at position
      `TotalBoxes(rs[..i]) + j`. */
  lemma EmittedAt(rs: seq<YoloResult>, i: nat, j: nat)
    requires i < |rs| && rs[i].boxes.Some? && j < |rs[i].boxes.value|
    ensures TotalBoxes(rs[..i]) + j < |Emitted(rs)|
    ensures Emitted(rs)[TotalBoxes(rs[..i]) + j] == Detected(rs[i].names, rs[i].boxes.value[j])
  {
    assert rs == rs[..i] + rs[i..];
    EmittedAppend(rs[..i], rs[i..]);
    EmittedLength(rs[..i]);
    assert rs[i..][0] == rs[i];
  }

  /** One box as a prediction; its class name comes from its own result's table. */
  function ToPrediction(d: Detected): (r: Result<Prediction, Failure>)
    ensures r.Failure? <==> Lookup(d.names, d.box.classId).None?
    ensures r.Failure? ==> r.error == UnknownClass(d.box.classId)
  {
    match Lookup(d.names, d.box.classId)
    case None => Failure(UnknownClass(d.box.classId))
    case Some(name) => Success(Prediction(name, d.box.confidence, ToBBox(d.box)))
  }

  /** Converts boxes in order; the first box whose class is unknown fails the
      whole conversion. */
  function ConvertAll(ds: seq<Detected>): Result<seq<Prediction>, Failure>
  {
    if ds == [] then Success([])
    else match ToPrediction(ds[0])
      case Failure(e) => Failure(e)
      case Success(p) =>
        match ConvertAll(ds[1..])
        case Failure(e) => Failure(e)
        case Success(ps) => Success([p] + ps)
  }

  /** Sequential composition of two conversions: the first failure wins. */
  function Then(a: Result<seq<Prediction>, Failure>, b: Result<seq<Prediction>, Failure>): Result<seq<Prediction>, Failure>
  {
    if a.Failure? then a else if b.Failure? then b else Success(a.value + b.value)
  }

  lemma {:induction false} ConvertAllAppend(a: seq<Detected>, b: seq<Detected>)
    ensures ConvertAll(a + b) == Then(ConvertAll(a), ConvertAll(b))
  {
    if a == [] {
      assert a + b == b;
      if ConvertAll(b).Success? {
        assert [] + ConvertAll(b).value == ConvertAll(b).value;
      }
    } else {
      assert (a + b)[0] == a[0];
      assert (a + b)[1..] == a[1..] + b;
      ConvertAllAppend(a[1..], b);
      match ConvertAll(b)
      case Failure(_) =>
      case Success(q) =>
        match ConvertAll(a[1..])
        case Failure(_) =>
        case Success(ps) =>
          match ToPrediction(a[0])
          case Failure(_) =>
          case Success(p) => assert [p] + (ps + q) == ([p] + ps) + q;
    }
  }

  /** A successful conversion keeps every box, in order, and nothing else. */
  lemma {:induction false} ConvertAllSuccess(ds: seq<Detected>, ps: seq<Prediction>)
    requires ConvertAll(ds) == Success(ps)
    ensures |ps| == |ds|
    ensures forall k :: 0 <= k < |ds| ==> ToPrediction(ds[k]) == Success(ps[k])
  {
    if ds != [] {
      ConvertAllSuccess(ds[1..], ps[1..]);
      forall k | 0 <= k < |ds| ensures ToPrediction(ds[k]) == Success(ps[k]) {
        if k > 0 {
          assert ds[1..][k - 1] == ds[k];
        }
      }
    }
  }

  /** A conversion fails exactly when some box has an unknown class, and it
      reports the first such box. */
  lemma {:induction false} ConvertAllFailure(ds: seq<Detected>)
    ensures ConvertAll(ds).Failure? <==> exists k :: 0 <= k < |ds| && ToPrediction(ds[k]).Failure?
    ensures ConvertAll(ds).Failure? ==>
      exists k :: 0 <= k < |ds| && ToPrediction(ds[k]) == Failure(ConvertAll(ds).error) &&
        forall m :: 0 <= m < k ==> ToPrediction(ds[m]).Success?
  {
    if ds != [] {
      ConvertAllFailure(ds[1..]);
      if ToPrediction(ds[0]).Success? {
        forall k | 0 < k < |ds| ensures ToPrediction(ds[k]) == ToPrediction(ds[1..][k - 1]) {
        }
        if ConvertAll(ds).Failure? {
          var k :| 0 <= k < |ds[1..]| && ToPrediction(ds[1..][k]) == Failure(ConvertAll(ds[1..]).error) &&
            forall m :: 0 <= m < k ==> ToPrediction(ds[1..][m]).Success?;
          assert ToPrediction(ds[k + 1]) == Failure(ConvertAll(ds).error);
          forall m | 0 <= m < k + 1 ensures ToPrediction(ds[m]).Success? {
            if m > 0 {
              assert ToPrediction(ds[1..][m - 1]).Success?;
            }
          }
        }
      }
    }
  }

  /** The `predictions` list built from an inference's results. */
  function Predictions(rs: seq<YoloResult>): Result<seq<Prediction>, Failure>
  {
    ConvertAll(Emitted(rs))
  }

  /** Every box of a present result is one prediction: none is filtered out. */
  lemma PredictionsCount(rs: seq<YoloResult>)
    requires Predictions(rs).Success?
    ensures |Predictions(rs).value| == TotalBoxes(rs)
  {
    ConvertAllSuccess(Emitted(rs), Predictions(rs).value);
    EmittedLength(rs);
  }

  /** Results without boxes give an empty prediction list, not an error. */
  lemma NoBoxesNoPredictions(rs: seq<YoloResult>)
    requires TotalBoxes(rs) == 0
    ensures Predictions(rs) == Success([])
  {
    EmittedLength(rs);  // no boxes: nothing is emitted
  }

  /** Box `j` of result `i` becomes the prediction at position
      `TotalBoxes(rs[..i]) + j`, named from result `i`'s own table and with
      the box's corners converted to top-left corner, width and height. */
  lemma PredictionAt(rs: seq<YoloResult>, i: nat, j: nat)
    requires Predictions(rs).Success?
    requires i < |rs| && rs[i].boxes.Some? && j < |rs[i].boxes.value|
    ensures var b := rs[i].boxes.value[j];
      && Lookup(rs[i].names, b.classId).Some?
      && TotalBoxes(rs[..i]) + j < |Predictions(rs).value|
      && Predictions(rs).value[TotalBoxes(rs[..i]) + j] ==
         Prediction(Lookup(rs[i].names, b.classId).value, b.confidence, ToBBox(b))
  {
    EmittedAt(rs, i, j);
    ConvertAllSuccess(Emitted(rs), Predictions(rs).value);
  }

  /** The mapping fails exactly when some box's class index is missing from
      its own result's table. */
  lemma PredictionsFailure(rs: seq<YoloResult>)
    ensures Predictions(rs).Failure? <==>
      exists i, j :: 0 <= i < |rs| && rs[i].boxes.Some? && 0 <= j < |rs[i].boxes.value| &&
        Lookup(rs[i].names, rs[i].boxes.value[j].classId).None?
  {
    var ds := Emitted(rs);
    ConvertAllFailure(ds);
    if Predictions(rs).Failure? {
      var k :| 0 <= k < |ds| && ToPrediction(ds[k]).Failure?;
      EmittedMember(rs, ds[k]);
    }
    if exists i, j :: 0 <= i < |rs| && rs[i].boxes.Some? && 0 <= j < |rs[i].boxes.value| &&
        Lookup(rs[i].names, rs[i].boxes.value[j].classId).None? {
      var i, j :| 0 <= i < |rs| && rs[i].boxes.Some? && 0 <= j < |rs[i].boxes.value| &&
        Lookup(rs[i].names, rs[i].boxes.value[j].classId).None?;
      EmittedAt(rs, i, j);
      var k := TotalBoxes(rs[..i]) + j;
      assert ToPrediction(ds[k]).Failure?;
    }
  }

  /** Position `k` holds the first box in `ds` whose class is unknown. */
  ghost predicate FirstUnknown(ds: seq<Detected>, k: int)
  {
    && 0 <= k < |ds|
    && Lookup(ds[k].names, ds[k].box.classId).None?
    && forall m :: 0 <= m < k ==> Lookup(ds[m].names, ds[m].box.classId).Some?
  }

  /** A failing mapping reports the first box, in emission order, whose class
      is unknown. */
  lemma PredictionsFirstFailure(rs: seq<YoloResult>)
    requires Predictions(rs).Failure?
    ensures exists k ::
      (FirstUnknown(Emitted(rs), k) && Predictions(rs).error == UnknownClass(Emitted(rs)[k].box.classId))
  {
    var ds := Emitted(rs);
    ConvertAllFailure(ds);
    var k :| 0 <= k < |ds| && ToPrediction(ds[k]) == Failure(ConvertAll(ds).error) &&
      forall m :: 0 <= m < k ==> ToPrediction(ds[m]).Success?;
    forall m | 0 <= m < k ensures Lookup(ds[m].names, ds[m].box.classId).Some? {
      assert ToPrediction(ds[m]).Success?;
    }
    assert FirstUnknown(ds, k);
  }

  /** The prefix of the emission that the loop below has consumed after
      result `i`'s first `j` boxes. */
  function Consumed(rs: seq<YoloResult>, i: nat, j: nat): seq<Detected>
    requires i < |rs| && j <= |Tagged(rs[i])|
  {
    Emitted(rs[..i]) + Tagged(rs[i])[..j]
  }

  /** The emission cut just before and just after box `j` of result `i`. */
  lemma EmittedSplitAt(rs: seq<YoloResult>, i: nat, j: nat)
    requires i < |rs| && j < |Tagged(rs[i])|
    ensures Emitted(rs) ==
      Consumed(rs, i, j) + ([Tagged(rs[i])[j]] + (Tagged(rs[i])[j + 1..] + Emitted(rs[i + 1..])))
  {
    var done, tagged, rest := Emitted(rs[..i]), Tagged(rs[i]), Emitted(rs[i + 1..]);
    EmittedAround(rs, i);
    SplitAround(done, tagged, rest, j);
  }

  /** Growing a slice by one element. */
  lemma SnocSlice<T>(a: seq<T>, t: seq<T>, j: nat)
    requires j < |t|
    ensures a + t[..j + 1] == (a + t[..j]) + [t[j]]
  {
    assert t[..j + 1] == t[..j] + [t[j]];
  }

  /** Cutting the middle of a three-part sequence at position `j`. */
  lemma SplitAround<T>(a: seq<T>, t: seq<T>, r: seq<T>, j: nat)
    requires j < |t|
    ensures a + (t + r) == (a + t[..j]) + ([t[j]] + (t[j + 1..] + r))
  {
    assert t == t[..j] + ([t[j]] + t[j + 1..]);
  }

  /** The emission around result `i`. */
  lemma EmittedAround(rs: seq<YoloResult>, i: nat)
    requires i < |rs|
    ensures Emitted(rs) == Emitted(rs[..i]) + (Tagged(rs[i]) + Emitted(rs[i + 1..]))
  {
    assert rs == rs[..i] + rs[i..];
    EmittedAppend(rs[..i], rs[i..]);
    assert rs[i..][0] == rs[i] && rs[i..][1..] == rs[i + 1..];
  }

  /** A known box extends a successful conversion by its prediction. */
  lemma ConvertExtend(prefix: seq<Detected>, d: Detected, ps: seq<Prediction>, p: Prediction)
    requires ConvertAll(prefix) == Success(ps) && ToPrediction(d) == Success(p)
    ensures ConvertAll(prefix + [d]) == Success(ps + [p])
  {
    assert ConvertAll([d]) == Success([p]) by {
      assert [d][0] == d && [d][1..] == [];
      assert ConvertAll([]) == Success([]);
      assert [p] + [] == [p];
    }
    ConvertAllAppend(prefix, [d]);
  }

  /** An unknown box after a successful prefix fails the conversion,
      whatever follows it. */
  lemma ConvertStuck(whole: seq<Detected>, prefix: seq<Detected>, d: Detected, rest: seq<Detected>)
    requires whole == prefix + ([d] + rest)
    requires ConvertAll(prefix).Success? && ToPrediction(d).Failure?
    ensures ConvertAll(whole) == Failure(ToPrediction(d).error)
  {
    assert ([d] + rest)[0] == d;
    ConvertAllAppend(prefix, [d] + rest);
  }

  /** One more known box extends the converted prefix by one prediction. */
  lemma ConvertNextBox(rs: seq<YoloResult>, i: nat, j: nat, ps: seq<Prediction>, name: string)
    requires i < |rs| && rs[i].boxes.Some? && j < |rs[i].boxes.value|
    requires ConvertAll(Consumed(rs, i, j)) == Success(ps)
    requires Lookup(rs[i].names, rs[i].boxes.value[j].classId) == Some(name)
    ensures var b := rs[i].boxes.value[j];
      ConvertAll(Consumed(rs, i, j + 1)) == Success(ps + [Prediction(name, b.confidence, ToBBox(b))])
  {
    var tagged := Tagged(rs[i]);
    var b := rs[i].boxes.value[j];
    var p := Prediction(name, b.confidence, ToBBox(b));
    SnocSlice(Emitted(rs[..i]), tagged, j);
    assert ToPrediction(tagged[j]) == Success(p) by {
      assert tagged[j] == Detected(rs[i].names, b);
    }
    ConvertExtend(Consumed(rs, i, j), tagged[j], ps, p);
  }

  /** An unknown box fails the whole mapping, whatever follows it. */
  lemma ConvertUnknownBox(rs: seq<YoloResult>, i: nat, j: nat)
    requires i < |rs| && rs[i].boxes.Some? && j < |rs[i].boxes.value|
    requires ConvertAll(Consumed(rs, i, j)).Success?
    requires Lookup(rs[i].names, rs[i].boxes.value[j].classId).None?
    ensures Predictions(rs) == Failure(UnknownClass(rs[i].boxes.value[j].classId))
  {
    var d := Tagged(rs[i])[j];
    EmittedSplitAt(rs, i, j);
    ConvertStuck(Emitted(rs), Consumed(rs, i, j), d, Tagged(rs[i])[j + 1..] + Emitted(rs[i + 1..]));
  }

  /** Having consumed all of result `i`'s boxes is having converted `rs[..i + 1]`. */
  lemma ConvertNextResult(rs: seq<YoloResult>, i: nat)
    requires i < |rs|
    ensures Emitted(rs[..i + 1]) == Consumed(rs, i, |Tagged(rs[i])|)
  {
    assert rs[..i + 1] == rs[..i] + [rs[i]];
    EmittedAppend(rs[..i], [rs[i]]);
    assert Emitted([rs[i]]) == Tagged(rs[i]);
    assert Tagged(rs[i])[..|Tagged(rs[i])|] == Tagged(rs[i]);
  }

  /** The inner loop of main.py:75-87: appends one prediction per box of
      result `i` to `predictions`, raising on the first unknown class index. */
  method AppendBoxes(results: seq<YoloResult>, i: nat, predictions: seq<Prediction>)
    returns (r: Result<seq<Prediction>, Failure>)
    requires i < |results| && results[i].boxes.Some?
    requires ConvertAll(Emitted(results[..i])) == Success(predictions)
    ensures r.Success? ==> ConvertAll(Emitted(results[..i + 1])) == r
    ensures r.Failure? ==> Predictions(results) == r
  {
    var result := results[i];
    var boxes := result.boxes.value;
    var acc := predictions;
    var j := 0;
    assert Consumed(results, i, 0) == Emitted(results[..i]);
    while j < |boxes|
      invariant 0 <= j <= |boxes|
      invariant ConvertAll(Consumed(results, i, j)) == Success(acc)
    {
      var box := boxes[j];
      var className := Lookup(result.names, box.classId);
      if className.None? {
        ConvertUnknownBox(results, i, j);
        return Failure(UnknownClass(box.classId));
      }
      ConvertNextBox(results, i, j, acc, className.value);
      acc := acc + [Prediction(className.value, box.confidence, ToBBox(box))];
      j := j + 1;
    }
    ConvertNextResult(results, i);
    r := Success(acc);
  }

  /** The nested loop of main.py:71-87 (and 128-143): results in order, and
      for each result with boxes, its boxes in order. */
  method BuildPredictions(results: seq<YoloResult>) returns (r: Result<seq<Prediction>, Failure>)
    ensures r == Predictions(results)
  {
    var predictions: seq<Prediction> := [];
    var i := 0;
    while i < |results|
      invariant 0 <= i <= |results|
      invariant ConvertAll(Emitted(results[..i])) == Success(predictions)
    {
      var result := results[i];
      if result.boxes.Some? && |result.boxes.value| > 0 {
        var appended := AppendBoxes(results, i, predictions);
        if appended.Failure? {
          return appended;
        }
        predictions := appended.value;
      } else {
        ConvertNextResult(results, i);
        assert Consumed(results, i, |Tagged(result)|) == Emitted(results[..i]);
      }
      i := i + 1;
    }
    assert results[..i] == results;
    r := Success(predictions);
  }

  /** `all_classes`: empty without results, otherwise the class names of the
      last result (the loop variable `result` outlives the loop). */
  function AllClasses(rs: seq<YoloResult>): (names: seq<string>)
    ensures rs == [] ==> names == []
  {
    if |rs| > 0 then ClassNames(rs[|rs| - 1].names) else []
  }

  /** Only the last result's table matters: earlier results and every box
      are ignored. */
  lemma AllClassesLast(rs: seq<YoloResult>, last: YoloResult)
    ensures AllClasses(rs + [last]) == ClassNames(last.names)
  {
  }

  /** `all_classes` lists the whole vocabulary of the last result's table,
      whether or not a class was detected. */
  lemma AllClassesVocabulary(rs: seq<YoloResult>, name: string)
    requires rs != [] && UniqueKeys(rs[|rs| - 1].names)
    ensures name in AllClasses(rs) <==> Names(rs[|rs| - 1].names, name)
  {
    ClassNamesCover(rs[|rs| - 1].names, name);
  }
}
