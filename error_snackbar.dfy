/**
 * The error snackbar of frontend/src/components/ErrorSnackbar.tsx: the
 * message it shows for an error and its `open` flag, set from the `error`
 * prop at mount and whenever the prop changes, and cleared by a close
 * that is not a click-away.
 */
module ErrorSnackbar {
  import opened Wrappers
  import opened AxiosErrors

  const FALLBACK: string := "Something went wrong"

  /** The alert's text: the server's `error` when there is one (an empty one included, `??` keeping it), else the fallback. */
  function Message(error: Option<AxiosError>): (m: string)
    ensures error.Some? && ServerMessage(error.value).Some? ==> m == ServerMessage(error.value).value
    ensures (error.None? || ServerMessage(error.value).None?) ==> m == FALLBACK
  {
    match error
    case None => FALLBACK
    case Some(e) => ServerMessage(e).GetOr(FALLBACK)
  }

  /** The close reasons of the MUI Snackbar. */
  datatype CloseReason = Timeout | Clickaway | EscapeKeyDown

  class Snackbar {
    var error: Option<AxiosError>
    var open: bool

    /** The snackbar is only ever open while there is an error to show. */
    predicate Consistent()
      reads this
    {
      open ==> error.Some?
    }

    /** `useState(!!error)`. */
    constructor (error: Option<AxiosError>)
      ensures this.error == error && open == error.Some?
      ensures Consistent()
    {
      this.error := error;
      open := error.Some?;
    }

    /** `handleClose`, from the Snackbar (with a reason) or the Alert's close button (without one). */
    method HandleClose(reason: Option<CloseReason>)
      modifies this
      ensures error == old(error)
      ensures old(Consistent()) ==> Consistent()
      ensures open == (if reason == Some(Clickaway) then old(open) else false)
    {
      if reason != Some(Clickaway) {
        open := false;
      }
    }

    /** A new `error` prop: the effect on `[error]` runs when it differs from the previous one and sets `open` to `!!error`. */
    method ErrorChanged(e: Option<AxiosError>)
      modifies this
      ensures error == e
      ensures old(Consistent()) ==> Consistent()
      ensures open == (if e != old(error) then e.Some? else old(open))
    {
      if e != error {
        open := e.Some?;
      }
      error := e;
    }
  }
}
