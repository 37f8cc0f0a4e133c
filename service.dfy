/**
 * AprendeMasService.cs: the Windows service that owns the notification manager and the
 * command pipe. Commands arrive as strings; `HandleCommand` upper-cases them and drives
 * the manager, swallowing (logging) whatever the manager throws.
 */
module Service {

  import opened Strings
  import opened Notifications

  /** The manager after `HandleCommand(command)`; `sendOk` is how the manager's pipe send turns out. */
  function Dispatch(m: Manager, command: string, sendOk: bool): Manager
  {
    var c := ToUpper(command);
    if c == StartCommand then Start(m, sendOk).0
    else if c == StopCommand then Stop(m, sendOk).0
    else m
  }

  /** Commands are compared after upper-casing, so they are case-insensitive. */
  lemma DispatchIsCaseInsensitive(m: Manager, c1: string, c2: string, sendOk: bool)
    requires EqualsIgnoreCase(c1, c2)
    ensures Dispatch(m, c1, sendOk) == Dispatch(m, c2, sendOk)
  {
    assert ToUpper(c1) == ToUpper(c2) by {
      forall i | 0 <= i < |c1| ensures ToUpper(c1)[i] == ToUpper(c2)[i] { }
    }
  }

  /** Which manager operation a command runs: `START` and `STOP` in any case, anything else none. */
  lemma DispatchCases(m: Manager, command: string, sendOk: bool)
    ensures EqualsIgnoreCase(command, StartCommand) ==> Dispatch(m, command, sendOk) == Start(m, sendOk).0
    ensures EqualsIgnoreCase(command, StopCommand) ==> Dispatch(m, command, sendOk) == Stop(m, sendOk).0
    ensures !EqualsIgnoreCase(command, StartCommand) && !EqualsIgnoreCase(command, StopCommand)
            ==> Dispatch(m, command, sendOk) == m
  {
    UpperEqualsIffIgnoreCase(command, StartCommand);
    UpperEqualsIffIgnoreCase(command, StopCommand);
  }

  /**
   * `StopAsync`: stop the manager, then the pipe server. If the manager's stop throws,
   * the exception leaves the method and the pipe server keeps running.
   */
  function StopService(m: Manager, pipeServerRunning: bool, sendOk: bool): (res: (Manager, bool, Outcome))
    ensures !res.0.running
    ensures res.2 == Completed ==> !res.1
    ensures res.2 == Threw <==> m.running && !sendOk
    ensures res.2 == Threw ==> res.1 == pipeServerRunning
  {
    var (m1, outcome) := Stop(m, sendOk);
    if outcome == Threw then (m1, pipeServerRunning, Threw) else (m1, false, Completed)
  }

  class AprendeMasService {

    const manager: NotificationManager
    /** Whether the command pipe server is listening. */
    var pipeServerRunning: bool

    constructor ()
      ensures fresh(manager) && manager.State() == NewManager && !pipeServerRunning
    {
      manager := new NotificationManager();
      pipeServerRunning := false;
    }

    /** `ExecuteAsync` starting the pipe server. */
    method StartPipeServer()
      modifies this
      ensures pipeServerRunning
    {
      pipeServerRunning := true;
    }

    /** `HandleCommand`: an `async void` handler, so nothing it throws reaches the caller. */
    method HandleCommand(command: string, sendOk: bool)
      modifies manager
      ensures manager.State() == Dispatch(old(manager.State()), command, sendOk)
    {
      var c := ToUpper(command);
      if c == StartCommand {
        var _ := manager.StartAsync(sendOk);
      } else if c == StopCommand {
        var _ := manager.StopAsync(sendOk);
      }
    }

    /** `StopAsync`. */
    method StopAsync(sendOk: bool) returns (outcome: Outcome)
      modifies this, manager
      ensures (manager.State(), pipeServerRunning, outcome)
           == StopService(old(manager.State()), old(pipeServerRunning), sendOk)
    {
      outcome := manager.StopAsync(sendOk);
      if outcome == Threw {
        return;
      }
      pipeServerRunning := false;
    }
  }
}
