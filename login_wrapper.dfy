/**
 * The wrapper shared by the Google and the e-mail login: it starts the browser,
 * runs the flow in the background and hands the caller a closer. Once the
 * caller has closed the browser, the background flow fires no callback.
 */
module LoginWrapper {
  import opened Common

  /** A callback the flow fires. */
  datatype Notice = WaitingForActions | Succeeded | Failed(message: string)

  /**
   * One `loginWithGoogle` or `loginWithEmail` call after the browser started. The closer it returns
   * sets `closeMenuall`, after which the background flow fires nothing; the
   * success listeners attached when the flow finished are not guarded.
   */
  class LoginSession {
    var closeMenuall: bool
    /** Whether the page 'close' and browser 'disconnected' listeners are attached. */
    var listening: bool
    var notices: seq<Notice>
    /** How often the session's own `closeBrowser` ran. */
    var closes: nat

    constructor ()
      ensures !closeMenuall && !listening && notices == [] && closes == 0
    {
      closeMenuall := false;
      listening := false;
      notices := [];
      closes := 0;
    }

    /** The `closeBrowser` returned to the caller. */
    method Close()
      modifies this
      ensures closeMenuall && closes == old(closes) + 1
      ensures notices == old(notices) && listening == old(listening)
    {
      closeMenuall := true;
      closes := closes + 1;
    }

    /** The flow finished: unless closed, the user is asked to act and the success listeners are attached. */
    method FlowResolved()
      modifies this
      ensures old(closeMenuall) ==> notices == old(notices) && listening == old(listening)
      ensures !old(closeMenuall) ==> notices == old(notices) + [WaitingForActions] && listening
      ensures closeMenuall == old(closeMenuall) && closes == old(closes)
    {
      if closeMenuall {
        return;
      }
      notices := notices + [WaitingForActions];
      listening := true;
    }

    /** The flow threw: unless closed, onError fires (again) and the browser is closed. */
    method FlowRejected(message: string)
      modifies this
      ensures old(closeMenuall) ==> notices == old(notices) && closes == old(closes)
      ensures !old(closeMenuall) ==> notices == old(notices) + [Failed(message)] && closes == old(closes) + 1
      ensures closeMenuall == old(closeMenuall) && listening == old(listening)
    {
      if closeMenuall {
        return;
      }
      notices := notices + [Failed(message)];
      closes := closes + 1;
    }

    /** The page closed or the browser disconnected: each fires onSuccess once the listeners are attached. */
    method BrowserGone()
      modifies this
      ensures notices == old(notices) + (if listening then [Succeeded] else [])
      ensures closeMenuall == old(closeMenuall) && listening == old(listening) && closes == old(closes)
    {
      if listening {
        notices := notices + [Succeeded];
      }
    }
  }

  /** `loginWithGoogle` and `loginWithEmail` when starting the browser throws: onError with the error, which is then rethrown. */
  function StartFailed(message: string): (r: (seq<Notice>, Result<(), string>))
    ensures r.0 == [Failed(message)] && r.1 == Err(message)
  {
    ([Failed(message)], Err(message))
  }
}
