/** The flags of a transfer, and what a cancellation and an expired timeout do to
    them. */
module TransferFlags {

  datatype Flags = Flags(
    inFlight: bool, cancelling: bool, disappeared: bool, submitting: bool, completed: bool,
    timedOut: bool, timeoutHandled: bool, osHandlesTimeout: bool)

  const NO_FLAGS := Flags(false, false, false, false, false, false, false, false)

  const SUCCESS := 0
  const NO_DEVICE := -4
  const NOT_FOUND := -5

  /** libusb_cancel_transfer(): the flags and the return code, when the backend
      answers r */
  function Cancelled(f: Flags, r: int): (o: (Flags, int))
    ensures o.1 == if f.inFlight && !f.cancelling then r else -5
    ensures o.0.disappeared <==> f.disappeared || (f.inFlight && !f.cancelling && r == -4)
    ensures o.0.cancelling <==> f.cancelling || f.inFlight
  {
    if !f.inFlight || f.cancelling then (f, NOT_FOUND)
    else (f.(cancelling := true, disappeared := f.disappeared || r == NO_DEVICE), r)
  }

  /** handle_timeout() */
  function TimedOut(f: Flags, r: int): (f': Flags)
    ensures f'.timeoutHandled
    ensures f'.timedOut <==> f.timedOut || (f.inFlight && !f.cancelling && r == 0)
  {
    var (f', r') := Cancelled(f.(timeoutHandled := true), r);
    if r' == SUCCESS then f'.(timedOut := true) else f'
  }
}
