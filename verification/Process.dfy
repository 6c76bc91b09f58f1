/**
 * The lifecycle of one supervised PocketBase process
 * (helpers/process/service_process.go, states in helpers/process/handler.go).
 * Starting the operating-system process, signalling it and waiting for it
 * are effects whose outcomes are parameters; the goroutine that waits for
 * the exit is the separate `WaitForExit` step, run when the process ends.
 */
module Process {
  import opened Wrappers

  datatype ProcessState = Stopped | Starting | Running | Stopping

  /** What happens to a process; each class method below is one of these. */
  datatype Event =
    | StartSucceeded   // Start, and the command started
    | StartFailed      // Start, and the command did not start
    | Signalled        // Stop, and SIGTERM was delivered
    | SignalFailed     // Stop, and SIGTERM could not be delivered
    | Exited           // the command ended (waitForExit)

  /** The state after `e`, as the methods of Process leave it. */
  function Next(s: ProcessState, e: Event): (t: ProcessState)
    ensures e.Exited? ==> t == Stopped
    ensures (e.StartSucceeded? || e.StartFailed?) && s != Stopped ==> t == s
    ensures (e.Signalled? || e.SignalFailed?) && s != Running ==> t == s
  {
    match e
    case StartSucceeded => if s == Stopped then Running else s
    case StartFailed => s
    case Signalled => if s == Running then Stopping else s
    case SignalFailed => s
    case Exited => Stopped
  }

  /** The state after a sequence of events. */
  function Run(s: ProcessState, es: seq<Event>): (t: ProcessState)
    ensures es == [] ==> t == s
    // whatever came before, a process whose last event is its exit ends Stopped
    ensures es != [] && es[|es| - 1] == Exited ==> t == Stopped
    decreases |es|
  {
    if es == [] then s else Run(Next(s, es[0]), es[1..])
  }

  /** Starting is a transient state inside Start: no event ends in it unless it began there. */
  lemma NeverLeftStarting(s: ProcessState, e: Event)
    requires s != Starting
    ensures Next(s, e) != Starting
  {
  }

  /** From a new process, no sequence of events ever leaves the process Starting. */
  lemma {:induction false} NeverStartingBetweenCalls(s: ProcessState, es: seq<Event>)
    requires s != Starting
    ensures Run(s, es) != Starting
    decreases |es|
  {
    if es != [] {
      NeverLeftStarting(s, es[0]);
      NeverStartingBetweenCalls(Next(s, es[0]), es[1..]);
    }
  }

  /** Stopping is entered only from Running by a delivered signal. */
  lemma EnteringStopping(s: ProcessState, e: Event)
    requires s != Stopping && Next(s, e) == Stopping
    ensures s == Running && e == Signalled
  {
  }

  /** Running is entered only from Stopped by a successful start. */
  lemma EnteringRunning(s: ProcessState, e: Event)
    requires s != Running && Next(s, e) == Running
    ensures s == Stopped && e == StartSucceeded
  {
  }

  /** A started process that is stopped and then exits is Stopped again, ready for Start. */
  lemma StartStopExit()
    ensures Run(Stopped, [StartSucceeded, Signalled, Exited]) == Stopped
    ensures Run(Stopped, [StartSucceeded]) == Running
    ensures Run(Stopped, [StartSucceeded, Signalled]) == Stopping
  {
  }

  datatype ProcessErrorMessage = ProcessErrorMessage(id: string, error: string)

  const Terminated := "signal: terminated"

  /**
   * What waitForExit sends on the error channel: nothing for a clean exit or
   * for the SIGTERM that Stop sends, an error message otherwise.
   */
  function ExitReport(id: string, waitErr: Option<string>): (m: Option<ProcessErrorMessage>)
    ensures m.None? <==> waitErr.None? || waitErr.value == Terminated
    ensures m.Some? ==> m.value.id == id && HasSuffixOf(m.value.error, waitErr.value)
  {
    if waitErr.Some? && waitErr.value != Terminated then
      Some(ProcessErrorMessage(id, "process exited with error: " + waitErr.value))
    else None
  }

  predicate HasSuffixOf(s: string, suffix: string) {
    |suffix| <= |s| && s[|s| - |suffix|..] == suffix
  }

  /** One supervised process: its state, its running command, and what it reported. */
  class Process {
    const id: string
    const command: string
    const args: seq<string>
    /** Whether an error channel was configured (WithErrorChan). */
    const hasErrChan: bool
    var status: ProcessState
    /** The running command, as a handle; None before the first start. */
    var cmd: Option<nat>
    /** Whether the done channel of the current run exists (made by Start). */
    var hasCloseChan: bool
    /** The messages sent on the error channel, oldest first. */
    var reported: seq<ProcessErrorMessage>
    /** Whether Stop had to fall back to SIGKILL. */
    var killed: bool

    /** A process Running has a command to signal. */
    predicate Valid()
      reads this
    {
      (status == Running || status == Stopping) ==> cmd.Some? && hasCloseChan
    }

    constructor (id: string, command: string, args: seq<string>, hasErrChan: bool)
      ensures Valid()
      ensures this.id == id && this.command == command && this.args == args && this.hasErrChan == hasErrChan
      ensures status == Stopped && cmd.None? && !hasCloseChan && reported == [] && !killed
    {
      this.id := id;
      this.command := command;
      this.args := args;
      this.hasErrChan := hasErrChan;
      status := Stopped;
      cmd := None;
      hasCloseChan := false;
      reported := [];
      killed := false;
    }

    function IsRunning(): (b: bool)
      reads this
      ensures b <==> status == Running
    {
      status == Running
    }

    /**
     * Start: a no-op unless Stopped; otherwise Starting, then Running with
     * the new command, or back to Stopped with the start error.
     */
    method Start(started: bool, handle: nat) returns (ok: bool)
      requires Valid()
      modifies this
      ensures Valid()
      ensures status == Next(old(status), if started then StartSucceeded else StartFailed)
      ensures old(status) != Stopped ==> ok && unchanged(this)
      ensures old(status) == Stopped ==> ok == started && hasCloseChan
      ensures old(status) == Stopped && started ==> cmd == Some(handle)
      ensures old(status) == Stopped && !started ==> cmd == old(cmd)
      ensures reported == old(reported) && killed == old(killed)
    {
      if status != Stopped {
        return true;
      }
      hasCloseChan := true;
      status := Starting;
      if !started {
        status := Stopped;
        return false;
      }
      cmd := Some(handle);
      status := Running;
      ok := true;
    }

    /**
     * waitForExit: the command ended with `waitErr`; the process is Stopped
     * and an unexpected exit is reported when there is an error channel.
     */
    method WaitForExit(waitErr: Option<string>)
      requires Valid()
      modifies this
      ensures Valid()
      ensures status == Next(old(status), Exited)
      ensures reported == old(reported) + (if hasErrChan && ExitReport(id, waitErr).Some?
                                           then [ExitReport(id, waitErr).value] else [])
      ensures cmd == old(cmd) && hasCloseChan == old(hasCloseChan) && killed == old(killed)
    {
      var m := ExitReport(id, waitErr);
      if m.Some? && hasErrChan {
        reported := reported + [m.value];
      }
      status := Stopped;
    }

    /**
     * Stop: a no-op unless Running; otherwise Stopping, back to Running if
     * SIGTERM cannot be delivered; a process that does not exit within the
     * grace period is killed.
     */
    method Stop(signalDelivered: bool, exitedInTime: bool) returns (ok: bool)
      requires Valid()
      modifies this
      ensures Valid()
      ensures status == Next(old(status), if signalDelivered then Signalled else SignalFailed)
      ensures old(status) != Running ==> ok && unchanged(this)
      ensures old(status) == Running ==> ok == signalDelivered
      ensures killed == (old(killed) || (old(status) == Running && signalDelivered && !exitedInTime))
      ensures cmd == old(cmd) && reported == old(reported) && hasCloseChan == old(hasCloseChan)
    {
      if status != Running {
        return true;
      }
      status := Stopping;
      if !signalDelivered {
        status := Running;
        return false;
      }
      if hasCloseChan && !exitedInTime {
        killed := true;
      }
      ok := true;
    }
  }
}
