/** The two channel-future listeners attached to early responses: what each
    does once the write it watches has finished. */
module ChannelListeners {

  /** Why a write failed: the whole connection is gone, one HTTP/2 stream
      was reset, or anything else. */
  datatype FailureCause = ClosedSession | ClosedStream | OtherFailure

  datatype WriteResult = Succeeded | Failed(cause: FailureCause)

  /** `CLOSE` closes the channel after the write whatever its outcome;
      `CLOSE_ON_FAILURE` closes it only when the write failed. */
  datatype Listener = CloseListener | CloseOnFailureListener

  /** What a listener does: report the failure, and close the channel
      (through the guarded close of the handler). */
  datatype ListenerAction = ListenerAction(logException: bool, closeChannel: bool)

  /** `CLOSE` always closes and reports every failure. `CLOSE_ON_FAILURE`
      ignores a success and a reset stream, closes without a report when the
      session is already closed, and reports and closes on any other failure. */
  function OnWriteDone(listener: Listener, result: WriteResult): (a: ListenerAction)
    ensures listener == CloseListener ==> a.closeChannel && (a.logException <==> result.Failed?)
    ensures listener == CloseOnFailureListener ==>
              && (a.closeChannel <==> result.Failed? && result.cause != ClosedStream)
              && (a.logException <==> result.Failed? && result.cause == OtherFailure)
  {
    match listener
    case CloseListener =>
      ListenerAction(result.Failed?, true)
    case CloseOnFailureListener =>
      match result
      case Succeeded => ListenerAction(false, false)
      case Failed(ClosedSession) => ListenerAction(false, true)
      case Failed(ClosedStream) => ListenerAction(false, false)
      case Failed(OtherFailure) => ListenerAction(true, true)
  }

  /** Whenever `CLOSE_ON_FAILURE` closes the channel or reports, `CLOSE`
      does the same, so the listener for the last response is the stricter one. */
  lemma CloseIsStricter(result: WriteResult)
    ensures OnWriteDone(CloseOnFailureListener, result).closeChannel ==> OnWriteDone(CloseListener, result).closeChannel
    ensures OnWriteDone(CloseOnFailureListener, result).logException ==> OnWriteDone(CloseListener, result).logException
  {
  }
}
