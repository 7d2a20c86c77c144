/** Option and Result, the two failure-carrying shapes used throughout the model. */
module Wrappers {

  datatype Option<+T> = None | Some(value: T)

  datatype Result<+R, +E> = Success(value: R) | Failure(error: E)
}

/** The failures a request can run into. Every one of them reaches the client
    as the same generic server error carrying the failure's description. */
module Errors {

  datatype Failure =
    | MalformedBase64            // base64.b64decode rejected the payload
    | UnreadableImage            // Image.open could not decode the bytes
    | ModelUnavailable           // YOLO(MODEL_PATH) raised while loading the weights
    | InferenceFailed            // the model raised while predicting
    | UnknownClass(classId: int) // result.names[class_id] raised KeyError
}
