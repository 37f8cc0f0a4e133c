/**
 * NotificationManager.cs: an on/off flag in front of the pipe to the tray notifier. The
 * pipe client is an effect: `pipe` records every message handed to it, in order, and
 * `sendOk` says whether that hand-over succeeded (a failure is the rethrown exception).
 */
module Notifications {

  const StartCommand: string := "START"
  const StopCommand: string := "STOP"

  /** Whether an operation returned normally or rethrew the pipe client's exception. */
  datatype Outcome = Completed | Threw

  datatype Manager = Manager(running: bool, pipe: seq<string>)

  /** A newly constructed manager: not running, nothing sent. */
  const NewManager: Manager := Manager(false, [])

  /**
   * `StartAsync`: if not already running, set the flag and send `START`; a failed send
   * resets the flag and rethrows.
   */
  function Start(m: Manager, sendOk: bool): (res: (Manager, Outcome))
    ensures m.running ==> res == (m, Completed)
    ensures !m.running ==> res.0.pipe == m.pipe + [StartCommand]
    ensures !m.running ==> (res.0.running <==> sendOk) && (res.1 == Threw <==> !sendOk)
  {
    if m.running then (m, Completed)
    else (Manager(sendOk, m.pipe + [StartCommand]), if sendOk then Completed else Threw)
  }

  /**
   * `StopAsync`: if running, clear the flag first, then send `STOP`; a failed send
   * rethrows but the flag stays cleared.
   */
  function Stop(m: Manager, sendOk: bool): (res: (Manager, Outcome))
    ensures !m.running ==> res == (m, Completed)
    ensures !res.0.running
    ensures m.running ==> res.0.pipe == m.pipe + [StopCommand] && (res.1 == Threw <==> !sendOk)
  {
    if !m.running then (m, Completed)
    else (Manager(false, m.pipe + [StopCommand]), if sendOk then Completed else Threw)
  }

  /** `SendNotificationAsync`: only a running manager forwards the message. */
  function Send(m: Manager, message: string, sendOk: bool): (res: (Manager, Outcome))
    ensures res.0.running == m.running
    ensures res.0.pipe == if m.running then m.pipe + [message] else m.pipe
    ensures res.1 == Threw <==> m.running && !sendOk
  {
    if !m.running then (m, Completed)
    else (m.(pipe := m.pipe + [message]), if sendOk then Completed else Threw)
  }

  /**
   * A start that succeeds followed by a stop sends exactly `START` then `STOP` and ends
   * stopped; a start that fails leaves nothing for the stop to do.
   */
  lemma StartThenStop(m: Manager, startOk: bool, stopOk: bool)
    requires !m.running
    ensures var s := Stop(Start(m, startOk).0, stopOk).0;
      && !s.running
      && s.pipe == m.pipe + (if startOk then [StartCommand, StopCommand] else [StartCommand])
  {
  }

  /** A redundant start or stop sends nothing and changes nothing. */
  lemma RedundantCommandsAreSilent(m: Manager, ok: bool)
    ensures m.running ==> Start(m, ok).0 == m
    ensures !m.running ==> Stop(m, ok).0 == m
  {
  }

  class NotificationManager {

    /** `isRunning`. */
    var running: bool
    /** The messages handed to the pipe client. */
    var pipe: seq<string>

    ghost function State(): Manager
      reads this
    {
      Manager(running, pipe)
    }

    constructor ()
      ensures State() == NewManager
    {
      running := false;
      pipe := [];
    }

    method StartAsync(sendOk: bool) returns (outcome: Outcome)
      modifies this
      ensures (State(), outcome) == Start(old(State()), sendOk)
    {
      if running {
        return Completed;
      }
      running := true;
      pipe := pipe + [StartCommand];
      if !sendOk {
        running := false;
        return Threw;
      }
      outcome := Completed;
    }

    method StopAsync(sendOk: bool) returns (outcome: Outcome)
      modifies this
      ensures (State(), outcome) == Stop(old(State()), sendOk)
    {
      if !running {
        return Completed;
      }
      running := false;
      pipe := pipe + [StopCommand];
      outcome := if sendOk then Completed else Threw;
    }

    method SendNotificationAsync(message: string, sendOk: bool) returns (outcome: Outcome)
      modifies this
      ensures (State(), outcome) == Send(old(State()), message, sendOk)
    {
      if !running {
        return Completed;
      }
      pipe := pipe + [message];
      outcome := if sendOk then Completed else Threw;
    }
  }
}
