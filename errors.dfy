// The application's error type and result wrapper.

module Errors {

  /** The error kinds of the application, each carrying its message. */
  datatype AppError =
    | IoError(msg: string)
    | OrtError(msg: string)
    | ImageError(msg: string)
    | VramError(msg: string)
    | ModelLoadError(msg: string)
    | ImageLoadError(msg: string)
    | InferenceError(msg: string)
    | Unknown(msg: string)

  datatype Option<T> = None | Some(value: T)

  datatype Result<T, E> = Ok(value: T) | Err(error: E)
  {
    predicate IsFailure() { Err? }

    function PropagateFailure<U>(): Result<U, E>
      requires Err?
    {
      Err(error)
    }

    function Extract(): T
      requires Ok?
    {
      value
    }
  }

  type AppResult<T> = Result<T, AppError>

  /** The prefix the error's display text starts with, one per kind. */
  function Prefix(e: AppError): (p: string)
  {
    match e
    case IoError(_) => IO_PREFIX
    case OrtError(_) => ORT_PREFIX
    case ImageError(_) => IMAGE_PREFIX
    case VramError(_) => VRAM_PREFIX
    case ModelLoadError(_) => MODEL_LOAD_PREFIX
    case ImageLoadError(_) => IMAGE_LOAD_PREFIX
    case InferenceError(_) => INFERENCE_PREFIX
    case Unknown(_) => UNKNOWN_PREFIX
  }

  const IO_PREFIX: string := "IO Error: "
  const ORT_PREFIX: string := "ONNX Runtime Error: "
  const IMAGE_PREFIX: string := "Image Processing Error: "
  const VRAM_PREFIX: string := "VRAM Error: "
  const MODEL_LOAD_PREFIX: string := "Model Load Error: "
  const IMAGE_LOAD_PREFIX: string := "Image Load Error: "
  const INFERENCE_PREFIX: string := "Inference Error: "
  const UNKNOWN_PREFIX: string := "Unknown Error: "

  /** The display text of an error: its kind's prefix followed by its message. */
  function Display(e: AppError): string
  {
    Prefix(e) + e.msg
  }

  /** The display text is the kind's prefix, which ends in ": ", followed by the message unchanged. */
  lemma DisplayParts(e: AppError)
    ensures var p := Prefix(e);
            |p| > 2 && p[|p| - 2..] == ": "
    ensures var s := Display(e);
            |s| == |Prefix(e)| + |e.msg| && s[..|Prefix(e)|] == Prefix(e) && s[|Prefix(e)|..] == e.msg
  {
    var s := Display(e);
    assert s[|Prefix(e)|..] == e.msg;
  }
}
