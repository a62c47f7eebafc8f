/** Optional values and operation results shared by the whole model. */
module Wrappers {

  datatype Option<+T> = None | Some(value: T) {
    function GetOr(default: T): T {
      match this
      case Some(v) => v
      case None => default
    }
  }

  /** A value, or the error a Python operation would raise. */
  datatype Result<+T, +E> = Ok(value: T) | Err(error: E)

  /**
   What became of one save: it may raise with the old content still stored (LostSave) or the new one
   (LateFailure).
   */
  datatype SaveOutcome = Saved | LostSave | LateFailure
}
