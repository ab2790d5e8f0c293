/**
 * The CmdSN window (section 4.2.2.1 of RFC 7143): a mutex-protected counter that hands
 * out command sequence numbers while the target's window is open.
 */
module CmdWindow {
  import opened Prelude
  import opened Serial

  /** The fields guarded by the window's mutex. */
  datatype Win = Win(cmdSN: u32, expCmdSN: u32, maxCmdSN: u32, closed: bool)

  predicate WindowOpen(w: Win) {
    && !LessThan(w.maxCmdSN, w.expCmdSN)
    && InWindow(w.cmdSN, w.expCmdSN, w.maxCmdSN)
  }

  datatype Outcome<+N> = Granted(sn: N) | WindowClosed | Cancelled

  /** What an acquirer learns from one look at the window; None means that it has to wait. */
  function Verdict(w: Win, cancelled: bool): Option<Outcome<u32>> {
    if w.closed then Some(WindowClosed)
    else if cancelled then Some(Cancelled)
    else if WindowOpen(w) then Some(Granted(w.cmdSN))
    else None
  }

  function AfterAttempt(w: Win, cancelled: bool): Win {
    match Verdict(w, cancelled)
    case Some(Granted(sn)) => w.(cmdSN := Incr(w.cmdSN))
    case _ => w
  }

  function AfterUpdate(w: Win, expCmdSN: u32, maxCmdSN: u32): Win {
    if LessThan(maxCmdSN, Wrap(expCmdSN - 1)) then w
    else w.(expCmdSN := if GreaterThan(expCmdSN, w.expCmdSN) then expCmdSN else w.expCmdSN,
            maxCmdSN := maxCmdSN)
  }

  class CommandWindow {
    var cmdSN: u32
    var expCmdSN: u32
    var maxCmdSN: u32
    var closed: bool

    function View(): Win
      reads this
    {
      Win(cmdSN, expCmdSN, maxCmdSN, closed)
    }

    constructor (cmdSN: u32, expCmdSN: u32, maxCmdSN: u32)
      ensures View() == Win(cmdSN, expCmdSN, maxCmdSN, false)
    {
      this.cmdSN := cmdSN;
      this.expCmdSN := expCmdSN;
      this.maxCmdSN := maxCmdSN;
      closed := false;
    }

    method IsOpen() returns (open: bool)
      ensures open == WindowOpen(View())
    {
      if LessThan(maxCmdSN, expCmdSN) {
        return false;
      }
      open := InWindow(cmdSN, expCmdSN, maxCmdSN);
    }

    /** One critical section of acquire: the fast path, or one round of a waiter's loop. */
    method TryAcquire(cancelled: bool) returns (outcome: Option<Outcome<u32>>)
      modifies this
      ensures outcome == Verdict(old(View()), cancelled)
      ensures View() == AfterAttempt(old(View()), cancelled)
    {
      if closed {
        return Some(WindowClosed);
      }
      if cancelled {
        return Some(Cancelled);
      }
      var open := IsOpen();
      if !open {
        return None;
      }
      var sn := cmdSN;
      cmdSN := Incr(cmdSN);
      outcome := Some(Granted(sn));
    }

    /** Returns whether the waiters were woken. */
    method Update(expCmdSN: u32, maxCmdSN: u32) returns (updated: bool)
      modifies this
      ensures View() == AfterUpdate(old(View()), expCmdSN, maxCmdSN)
      ensures updated <==> View() != old(View())
    {
      updated := false;
      if LessThan(maxCmdSN, Wrap(expCmdSN - 1)) {
        return;
      }
      if GreaterThan(expCmdSN, this.expCmdSN) {
        this.expCmdSN := expCmdSN;
        updated := true;
      }
      if maxCmdSN != this.maxCmdSN {
        this.maxCmdSN := maxCmdSN;
        updated := true;
      }
    }

    method Close()
      modifies this
      ensures View() == old(View()).(closed := true)
    {
      closed := true;
    }
  }
}
