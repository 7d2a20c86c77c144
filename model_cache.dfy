/** The lazily loaded detector of main.py:22-30: a module-level slot that
    `get_model` fills on first use and returns ever after. */
module ModelCache {
  import opened Wrappers
  import opened Errors

  /** The weights file, resolved next to the service's own source file. */
  const MODEL_FILE: string := "best.pt"

  /** A loaded detector, identified by the weights it was built from. */
  class Detector {
    const weights: string

    constructor (weights: string)
      ensures this.weights == weights
    {
      this.weights := weights;
    }
  }

  /** The module-level `model` slot. `constructions` counts the detectors
      built so far. */
  class ModelHandle {
    var model: Detector?
    ghost var constructions: nat

    /** Empty exactly until the one construction; full slots hold the
        bundled weights. */
    ghost predicate Valid()
      reads this
    {
      && constructions <= 1
      && (model == null <==> constructions == 0)
      && (model != null ==> model.weights == MODEL_FILE)
    }

    /** The process starts with `model = None`. */
    constructor ()
      ensures Valid() && model == null && constructions == 0
    {
      model := null;
      constructions := 0;
    }

    /** `get_model()`. `loadable` is whether `YOLO(MODEL_PATH)` succeeds; when
        it raises, the assignment never happens and the slot stays empty. */
    method Get(loadable: bool) returns (r: Result<Detector, Failure>)
      requires Valid()
      modifies this
      ensures Valid()
      ensures old(model) != null ==>
        r == Success(old(model)) && model == old(model) && constructions == old(constructions)
      ensures old(model) == null && loadable ==>
        r.Success? && fresh(r.value) && model == r.value && constructions == old(constructions) + 1
      ensures old(model) == null && !loadable ==>
        r == Failure(ModelUnavailable) && model == null && constructions == old(constructions)
    {
      if model == null {
        if !loadable {
          return Failure(ModelUnavailable);
        }
        model := new Detector(MODEL_FILE);
        constructions := constructions + 1;
      }
      r := Success(model);
    }
  }

  /** Two calls in a row: the second returns the very detector the first
      built, and only one detector is ever built. */
  method GetTwice(handle: ModelHandle, loadable: bool) returns (first: Result<Detector, Failure>, second: Result<Detector, Failure>)
    requires handle.Valid()
    modifies handle
    ensures handle.Valid() && handle.constructions <= 1
    ensures first.Success? ==> second == first && handle.model == first.value
    ensures old(handle.model) != null ==> first == second == Success(old(handle.model))
  {
    first := handle.Get(loadable);
    second := handle.Get(loadable);
  }
}
