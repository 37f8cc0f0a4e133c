/** The two tray notifier programs as objects whose fields their methods update in place. */
module Tray {

  import opened Wrappers
  import opened Strings
  import opened TraySpec

  /** The tray of NotificationService.cs. */
  class NotificationService {

    var listening: bool
    var icon: Balloon
    var shown: seq<Balloon>
    var config: ConfigFile

    ghost function State(): TrayState
      reads this
    {
      TrayState(listening, icon, shown, config)
    }

    /** `Main` up to the start of listening. */
    constructor (file: ConfigFile)
      ensures State() == Startup(file)
    {
      var flag := LoadConfig(file);
      listening := flag;
      config := file;
      icon := InitialBalloon(flag);
      shown := [InitialBalloon(flag)];
    }

    method HandleMessage(message: string, saveOk: bool)
      modifies this
      ensures State() == TraySpec.HandleMessage(old(State()), message, saveOk)
    {
      if EqualsIgnoreCase(message, "START") {
        listening := true;
        config := SaveConfig(config, listening, saveOk);
        icon := Balloon(TitleActive, TextListening);
        shown := shown + [icon];
      } else if EqualsIgnoreCase(message, "STOP") {
        listening := false;
        config := SaveConfig(config, listening, saveOk);
        icon := Balloon(TitlePaused, TextPaused);
        shown := shown + [icon];
      } else if listening {
        icon := Balloon(TitleNotification, message);
        shown := shown + [icon];
      }
    }
  }

  /** The tray of Program.cs, which reads the pipe itself. */
  class Program {

    var listening: bool
    var icon: Balloon
    var shown: seq<Balloon>
    var config: ConfigFile

    ghost function State(): TrayState
      reads this
    {
      TrayState(listening, icon, shown, config)
    }

    /** `Main` up to the start of listening. */
    constructor (file: ConfigFile)
      ensures State() == Startup(file)
    {
      var flag := LoadConfig(file);
      listening := flag;
      config := file;
      icon := InitialBalloon(flag);
      shown := [InitialBalloon(flag)];
    }

    method HandleMessage(message: string, saveOk: bool)
      modifies this
      ensures State() == TraySpec.HandleMessage(old(State()), message, saveOk)
    {
      if EqualsIgnoreCase(message, "START") {
        listening := true;
        config := SaveConfig(config, listening, saveOk);
        icon := Balloon(TitleActive, TextListening);
        shown := shown + [icon];
      } else if EqualsIgnoreCase(message, "STOP") {
        listening := false;
        config := SaveConfig(config, listening, saveOk);
        icon := Balloon(TitlePaused, TextPaused);
        shown := shown + [icon];
      } else if listening {
        icon := Balloon(TitleNotification, message);
        shown := shown + [icon];
      }
    }

    /**
     * `ListenForMessagesAsync` over the lines its pipe connections deliver, one per
     * connection (None: the connection gave no line or failed), until cancellation.
     */
    method ListenForMessagesAsync(lines: seq<Option<string>>, saveOk: bool)
      modifies this
      ensures State() == HandleAll(old(State()), NonEmptyLines(lines), saveOk)
    {
      var i := 0;
      while i < |lines|
        invariant 0 <= i <= |lines|
        invariant State() == HandleAll(old(State()), NonEmptyLines(lines[..i]), saveOk)
      {
        var line := lines[i];
        assert lines[..i + 1][..i] == lines[..i];
        if line.Some? && line.value != [] {
          ghost var before := NonEmptyLines(lines[..i]);
          HandleMessage(line.value, saveOk);
          HandleAllSplit(old(State()), before, [line.value], saveOk);
          assert [line.value][1..] == [];
        }
        i := i + 1;
      }
      assert lines[..|lines|] == lines;
    }
  }
}
