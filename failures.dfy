/** Results of the recognition pipeline: either a value or the kind of
    exception the Java code would have thrown. */
module Failures {

  /** Why a recognition did not produce a ranking. Each constructor stands for
      a Java exception that reaches the catch block of the activity. */
  datatype Failure =
    | PipelineFailed         // an OpenCV call of preProcess threw
    | EngineFailed           // TensorFlow's feed, run or fetch threw
    | EngineOutputOverflow   // the engine's output does not fit the raw output buffer
    | LabelsExceedOutput     // System.arraycopy past the end of the raw output

  datatype Result<+T> = Ok(value: T) | Err(error: Failure)
}
