/**
 * The tray notifier (NotificationService.cs and its near-duplicate Program.cs): a
 * listening flag, persisted in config.json, and a tray icon whose balloon shows either a
 * state change or an incoming notification. The config file is a value (`ConfigFile`);
 * `saveOk` says whether writing it succeeds (SaveConfig logs and swallows failures).
 * `shown` records every `ShowBalloonTip` call with the balloon it showed. The classes in
 * module Tray update the same state in place.
 */
module TraySpec {

  import opened Wrappers
  import opened Strings

  const TitleActive: string := "Servicio Activo"
  const TitlePaused: string := "Servicio Pausado"
  const TitleNotification: string := "Notificaci\U{F3}n"
  const TextListening: string := "Escuchando notificaciones..."
  const TextPaused: string := "Notificador activo, pero en pausa."

  datatype Balloon = Balloon(title: string, text: string)

  /**
   * config.json as LoadConfig finds it: absent, unreadable or not valid JSON (the read
   * or the deserializer throws), the JSON literal `null`, or a stored flag.
   */
  datatype ConfigFile = Missing | Unreadable | NullConfig | Stored(isListening: bool)

  datatype TrayState = TrayState(listening: bool, icon: Balloon, shown: seq<Balloon>, config: ConfigFile)

  /** `LoadConfig`: the stored flag, and false whenever there is none. */
  function LoadConfig(file: ConfigFile): (b: bool)
    ensures b <==> file == Stored(true)
  {
    match file
    case Stored(flag) => flag
    case _ => false
  }

  /** `SaveConfig`: writes the flag, or leaves the file as it was when the write fails. */
  function SaveConfig(file: ConfigFile, listening: bool, saveOk: bool): (f: ConfigFile)
    ensures saveOk ==> f == Stored(listening)
    ensures !saveOk ==> f == file
  {
    if saveOk then Stored(listening) else file
  }

  /** Persisting a flag and loading it back gives the flag. */
  lemma SaveThenLoad(file: ConfigFile, listening: bool)
    ensures LoadConfig(SaveConfig(file, listening, true)) == listening
  {
  }

  /** The balloon `Main` sets up and shows at start-up. */
  function InitialBalloon(listening: bool): (b: Balloon)
    ensures b.title == TitleActive
    ensures b.text == if listening then TextListening else TextPaused
  {
    Balloon(TitleActive, if listening then TextListening else TextPaused)
  }

  /** The state after `Main`'s start-up: the flag from the config file, and the initial balloon shown once. */
  function Startup(file: ConfigFile): (t: TrayState)
    ensures t.listening == LoadConfig(file) && t.config == file
    ensures t.shown == [InitialBalloon(t.listening)]
  {
    var listening := LoadConfig(file);
    TrayState(listening, InitialBalloon(listening), [InitialBalloon(listening)], file)
  }

  function Show(t: TrayState, b: Balloon): TrayState
  {
    t.(icon := b, shown := t.shown + [b])
  }

  predicate IsStart(message: string) { EqualsIgnoreCase(message, "START") }
  predicate IsStop(message: string) { EqualsIgnoreCase(message, "STOP") }

  /**
   * `HandleMessage`: `START` and `STOP`, compared case-insensitively and tested first,
   * switch listening on or off, persist it and show the new state; any other message is
   * shown as a notification while listening and ignored otherwise.
   */
  function HandleMessage(t: TrayState, message: string, saveOk: bool): (s: TrayState)
    ensures IsStart(message) ==>
      && s.listening
      && s.icon == Balloon(TitleActive, TextListening)
      && s.shown == t.shown + [s.icon]
      && s.config == SaveConfig(t.config, true, saveOk)
    ensures IsStop(message) ==>
      && !s.listening
      && s.icon == Balloon(TitlePaused, TextPaused)
      && s.shown == t.shown + [s.icon]
      && s.config == SaveConfig(t.config, false, saveOk)
    ensures !IsStart(message) && !IsStop(message) ==>
      && s.listening == t.listening
      && s.config == t.config
      && (t.listening ==> s.icon == Balloon(TitleNotification, message) && s.shown == t.shown + [s.icon])
      && (!t.listening ==> s == t)
  {
    if IsStart(message) then
      Show(t.(listening := true, config := SaveConfig(t.config, true, saveOk)), Balloon(TitleActive, TextListening))
    else if IsStop(message) then
      Show(t.(listening := false, config := SaveConfig(t.config, false, saveOk)), Balloon(TitlePaused, TextPaused))
    else if t.listening then
      Show(t, Balloon(TitleNotification, message))
    else t
  }

  /** `START` and `STOP` are never shown as notifications, in whatever case they arrive. */
  lemma CommandsAreNeverDisplayed(t: TrayState, message: string, saveOk: bool)
    requires IsStart(message) || IsStop(message)
    ensures HandleMessage(t, message, saveOk).icon.title != TitleNotification
  {
    assert TitleActive[0] != TitleNotification[0];
  }

  /**
   * After a command is persisted, a restarted notifier comes back in the state the
   * command set, with the matching start-up balloon.
   */
  lemma RestartResumesPersistedState(t: TrayState, message: string)
    requires IsStart(message) || IsStop(message)
    ensures var s := HandleMessage(t, message, true);
      Startup(s.config).listening == s.listening && Startup(s.config).icon.text == (if IsStart(message) then TextListening else TextPaused)
  {
  }

  /** The messages in turn, as the pipe delivers them. */
  function HandleAll(t: TrayState, messages: seq<string>, saveOk: bool): TrayState
    decreases |messages|
  {
    if messages == [] then t
    else HandleAll(HandleMessage(t, messages[0], saveOk), messages[1..], saveOk)
  }

  /** The listening flag after `messages`: set by the last START or STOP among them. */
  function ListeningAfter(listening: bool, messages: seq<string>): bool
  {
    if messages == [] then listening
    else
      var last := messages[|messages| - 1];
      if IsStart(last) then true
      else if IsStop(last) then false
      else ListeningAfter(listening, messages[..|messages| - 1])
  }

  /** Only the commands decide the flag: after any run of messages it is set by the last command. */
  lemma {:induction false} HandleAllListening(t: TrayState, messages: seq<string>, saveOk: bool)
    ensures HandleAll(t, messages, saveOk).listening == ListeningAfter(t.listening, messages)
    decreases |messages|
  {
    if messages != [] {
      var init := messages[..|messages| - 1];
      var last := messages[|messages| - 1];
      HandleAllSplit(t, init, [last], saveOk);
      assert init + [last] == messages;
      HandleAllListening(t, init, saveOk);
      assert [last][1..] == [];
    }
  }

  lemma {:induction false} HandleAllSplit(t: TrayState, a: seq<string>, b: seq<string>, saveOk: bool)
    ensures HandleAll(t, a + b, saveOk) == HandleAll(HandleAll(t, a, saveOk), b, saveOk)
    decreases |a|
  {
    if a != [] {
      assert (a + b)[0] == a[0];
      assert (a + b)[1..] == a[1..] + b;
      HandleAllSplit(HandleMessage(t, a[0], saveOk), a[1..], b, saveOk);
    } else {
      assert a + b == b;
    }
  }

  /** The lines the listen loop hands on: the null ones (None) and the empty ones are dropped. */
  function NonEmptyLines(lines: seq<Option<string>>): (ms: seq<string>)
    ensures |ms| <= |lines|
    ensures forall i :: 0 <= i < |ms| ==> ms[i] != []
    ensures forall m :: m in ms ==> Some(m) in lines
    ensures forall i :: 0 <= i < |lines| && lines[i].Some? && lines[i].value != [] ==> lines[i].value in ms
  {
    if lines == [] then []
    else
      var rest := NonEmptyLines(lines[..|lines| - 1]);
      var last := lines[|lines| - 1];
      assert forall m :: Some(m) in lines[..|lines| - 1] ==> Some(m) in lines;
      assert forall i :: 0 <= i < |lines| - 1 ==> lines[i] == lines[..|lines| - 1][i];
      if last.Some? && last.value != [] then rest + [last.value] else rest
  }

  /** The filter keeps the order of the lines: filtering two runs of lines is filtering each in turn. */
  lemma {:induction false} NonEmptyLinesAppend(a: seq<Option<string>>, b: seq<Option<string>>)
    ensures NonEmptyLines(a + b) == NonEmptyLines(a) + NonEmptyLines(b)
    decreases |b|
  {
    if b == [] {
      assert a + b == a;
    } else {
      var init := b[..|b| - 1];
      assert (a + b)[..|a + b| - 1] == a + init;
      assert (a + b)[|a + b| - 1] == b[|b| - 1];
      NonEmptyLinesAppend(a, init);
    }
  }
}
