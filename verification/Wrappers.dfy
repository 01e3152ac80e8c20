/** Optional values and fallible results shared by every module. */
module Wrappers {

  /** A Go pointer or slice that may be nil. */
  datatype Option<+T> = None | Some(value: T) {
    function GetOr(default: T): T {
      if Some? then value else default
    }
  }

  /** The (value, error) pair of a Go function. */
  datatype Result<+T, +E> = Ok(value: T) | Err(error: E)

  /** The lone error result of a Go function that edits its argument in place. */
  datatype Outcome<+E> = Pass | Fail(error: E)

  /** `setPtr`: a provided value replaces the stored one, an absent one keeps it. */
  function SetPtr<T>(stored: Option<T>, provided: Option<T>): Option<T> {
    if provided.Some? then provided else stored
  }

  /** `setStrPtr`: a non-empty string replaces the stored one, a blank one keeps it. */
  function SetStrPtr(stored: Option<string>, provided: string): Option<string> {
    if provided != "" then Some(provided) else stored
  }

  /** `strVal`: a nil string pointer reads as the empty string. */
  function StrVal(s: Option<string>): string {
    s.GetOr("")
  }
}
